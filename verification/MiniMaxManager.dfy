/**
  The lifecycle of server/internal/agent/minimax_agent_manager.go as interleaved
  steps. Each step is one critical section, one cancel call, one wg.Wait that
  returns, one goroutine start or one goroutine end. Two threads move through the
  manager's code: the one in Run, and the one caller that holds reloadMu.
 */
module MiniMaxManager {
  type Account = int

  datatype Pc =
    | Idle
    | Collecting                                         // stopAllAgents, about to swap the map
    | Cancelling(ids: set<nat>)                          // instances taken out and not yet cancelled
    | Waiting                                            // wg.Wait
    | Querying                                           // about to read the accounts
    | Checking(todo: seq<Account>)                       // about to look the next account up
    | Inserting(account: Account, todo: seq<Account>)    // not found, about to insert
    | Spawning(account: Account, id: nat, todo: seq<Account>) // inserted, about to wg.Add and go
    | Finished

  /** Accounts may still be started from here. */
  predicate StillStarting(pc: Pc) {
    pc.Querying? || (pc.Checking? && pc.todo != []) || pc.Inserting? || pc.Spawning?
  }

  function Pending(pc: Pc): set<nat> {
    if pc.Cancelling? then pc.ids else {}
  }

  datatype State = State(
    instances: map<Account, nat>,
    live: map<nat, Account>, // goroutines the WaitGroup counts
    cancelled: set<nat>,
    nextId: nat,
    ctxDone: bool,
    run: Pc,
    reload: Pc)

  /** `accounts` is what a query returns, `pick` the instance cancelled next, `id` the goroutine that ends. */
  datatype Step =
    | RunMoves(pick: nat, accounts: seq<Account>)
    | ReloadMoves(pick: nat, accounts: seq<Account>)
    | ReloadCalled
    | GoroutineEnds(id: nat)
    | ContextCancelled

  predicate Distinct(accounts: seq<Account>) {
    forall i, j :: 0 <= i < j < |accounts| ==> accounts[i] != accounts[j]
  }

  /** One move through stopAllAgents and loadAndStartAccounts. A step that is not enabled changes nothing. */
  function Advance(s: State, pc: Pc, pick: nat, accounts: seq<Account>, afterWait: Pc): (State, Pc) {
    match pc
    case Collecting => (s.(instances := map[]), Cancelling(s.instances.Values))
    case Cancelling(ids) =>
      if ids == {} then (s, Waiting)
      else if pick in ids then (s.(cancelled := s.cancelled + {pick}), Cancelling(ids - {pick}))
      else (s, pc)
    case Waiting => if s.live == map[] then (s, afterWait) else (s, pc)
    case Querying => if Distinct(accounts) then (s, Checking(accounts)) else (s, pc)
    case Checking(todo) =>
      if todo == [] then (s, Idle)
      else if todo[0] in s.instances then (s, Checking(todo[1..]))
      else (s, Inserting(todo[0], todo[1..]))
    case Inserting(account, todo) =>
      (s.(instances := s.instances[account := s.nextId], nextId := s.nextId + 1), Spawning(account, s.nextId, todo))
    case Spawning(account, id, todo) => (s.(live := s.live[id := account]), Checking(todo))
    case _ => (s, pc)
  }

  function Apply(s: State, step: Step): State {
    match step
    case RunMoves(pick, accounts) =>
      if s.run.Idle? then (if s.ctxDone then s.(run := Collecting) else s)
      else
        var (t, pc) := Advance(s, s.run, pick, accounts, Finished);
        t.(run := pc)
    case ReloadMoves(pick, accounts) =>
      var (t, pc) := Advance(s, s.reload, pick, accounts, Querying);
      t.(reload := pc)
    case ReloadCalled => if s.reload.Idle? && !s.ctxDone then s.(reload := Collecting) else s
    case GoroutineEnds(id) => s.(live := s.live - {id})
    case ContextCancelled => s.(ctxDone := true)
  }

  /** Run has just set up its context and is about to load the accounts. */
  const INITIAL: State := State(map[], map[], {}, 0, false, Querying, Idle)

  function Execute(s: State, steps: seq<Step>): State {
    if steps == [] then s else Apply(Execute(s, steps[..|steps| - 1]), steps[|steps| - 1])
  }

  // Safety.

  /** At most one polling goroutine per account. */
  predicate OnePerAccount(live: map<nat, Account>) {
    forall i, j :: i in live && j in live && live[i] == live[j] ==> i == j
  }

  /** No live goroutine polls this account. */
  predicate Unpolled(live: map<nat, Account>, account: Account) {
    forall i :: i in live ==> live[i] != account
  }

  /** Accounts that may be started one after the other. */
  predicate Startable(live: map<nat, Account>, todo: seq<Account>) {
    Distinct(todo) && forall a :: a in todo ==> Unpolled(live, a)
  }

  /** The accounts still to be started are distinct, unpolled, and not registered by anybody else. */
  predicate LoadingIsClear(s: State, pc: Pc) {
    match pc
    case Querying => s.live == map[]
    case Checking(todo) => Startable(s.live, todo)
    case Inserting(account, todo) =>
      Startable(s.live, todo) && account !in todo && Unpolled(s.live, account) && account !in s.instances
    case Spawning(account, id, todo) =>
      Startable(s.live, todo) && account !in todo && Unpolled(s.live, account)
      && id < s.nextId && id !in s.live && Accounted(s, account, id)
    case _ => true
  }

  /** Goroutine `id` of `account` can be cancelled: it is registered, or its cancellation has happened or is under way. */
  predicate Accounted(s: State, account: Account, id: nat) {
    || (account in s.instances && s.instances[account] == id)
    || id in s.cancelled || id in Pending(s.run) || id in Pending(s.reload)
  }

  /** Nothing runs that nobody can stop. */
  predicate Registered(s: State) {
    && (forall i :: i in s.live ==> i < s.nextId && Accounted(s, s.live[i], i))
    && (forall a :: a in s.instances ==> s.instances[a] < s.nextId)
  }

  predicate Clear(s: State) {
    && OnePerAccount(s.live)
    && !(StillStarting(s.run) && !s.reload.Idle?)
    && LoadingIsClear(s, s.run) && LoadingIsClear(s, s.reload)
    && (s.reload.Cancelling? || s.reload.Waiting? || s.reload.Querying? ==> s.instances == map[])
    && (s.run.Collecting? || s.run.Cancelling? || s.run.Waiting? || s.run.Finished? ==> s.ctxDone)
  }

  predicate Inv(s: State) {
    Registered(s) && Clear(s)
  }

  /** A Reload that begins while Run may still start accounts in its initial load. */
  predicate EarlyReload(s: State, step: Step) {
    step.ReloadCalled? && s.reload.Idle? && !s.ctxDone && StillStarting(s.run)
  }

  lemma FirstOfDistinct(todo: seq<Account>)
    requires Distinct(todo) && todo != []
    ensures todo[0] !in todo[1..] && Distinct(todo[1..])
    ensures forall a :: a in todo[1..] ==> a in todo
  {
  }

  /** Starting the goroutine of an account nobody polls. */
  lemma SpawnKeepsOne(live: map<nat, Account>, account: Account, id: nat, todo: seq<Account>)
    requires OnePerAccount(live) && Unpolled(live, account) && id !in live
    requires Startable(live, todo) && account !in todo
    ensures OnePerAccount(live[id := account]) && Startable(live[id := account], todo)
  {
    hide Distinct;
    forall a | a in todo
      ensures Unpolled(live[id := account], a)
    {
      assert Unpolled(live, a);
    }
  }

  lemma NothingLive(accounts: seq<Account>)
    requires Distinct(accounts)
    ensures Startable(map[], accounts) && OnePerAccount(map[])
  {
  }

  lemma RunMoveRegisters(s: State, pick: nat, accounts: seq<Account>)
    requires Registered(s)
    requires s.run.Inserting? ==> s.run.account !in s.instances
    requires s.run.Spawning? ==> s.run.id < s.nextId && Accounted(s, s.run.account, s.run.id)
    ensures Registered(Apply(s, RunMoves(pick, accounts)))
  {
    hide Distinct;
  }

  lemma RunMoveKeeps(s: State, pick: nat, accounts: seq<Account>)
    requires Inv(s)
    ensures Inv(Apply(s, RunMoves(pick, accounts)))
  {
    MoveLemmas(s, s.run, accounts);
    RunMoveRegisters(s, pick, accounts);
    hide Distinct;
    hide Startable;
    hide OnePerAccount;
    hide Unpolled;
    hide Registered;
  }

  lemma ReloadMoveRegisters(s: State, pick: nat, accounts: seq<Account>)
    requires Registered(s)
    requires s.reload.Inserting? ==> s.reload.account !in s.instances
    requires s.reload.Spawning? ==> s.reload.id < s.nextId && Accounted(s, s.reload.account, s.reload.id)
    ensures Registered(Apply(s, ReloadMoves(pick, accounts)))
  {
    hide Distinct;
  }

  lemma ReloadMoveKeeps(s: State, pick: nat, accounts: seq<Account>)
    requires Inv(s)
    ensures Inv(Apply(s, ReloadMoves(pick, accounts)))
  {
    MoveLemmas(s, s.reload, accounts);
    ReloadMoveRegisters(s, pick, accounts);
    hide Distinct;
    hide Startable;
    hide OnePerAccount;
    hide Unpolled;
    hide Registered;
  }

  /** The facts about the account at hand that one move needs. */
  lemma MoveLemmas(s: State, pc: Pc, accounts: seq<Account>)
    requires LoadingIsClear(s, pc) && OnePerAccount(s.live)
    ensures pc.Querying? && Distinct(accounts) ==> Startable(s.live, accounts)
    ensures pc.Checking? && pc.todo != [] ==>
      Startable(s.live, pc.todo[1..]) && pc.todo[0] !in pc.todo[1..] && Unpolled(s.live, pc.todo[0])
    ensures pc.Spawning? ==>
      OnePerAccount(s.live[pc.id := pc.account]) && Startable(s.live[pc.id := pc.account], pc.todo)
  {
    hide Distinct;
    if pc.Querying? && Distinct(accounts) {
      NothingLive(accounts);
    } else if pc.Checking? && pc.todo != [] {
      FirstOfDistinct(pc.todo);
    } else if pc.Spawning? {
      SpawnKeepsOne(s.live, pc.account, pc.id, pc.todo);
    }
  }

  lemma ApplyKeeps(s: State, step: Step)
    requires Inv(s) && !EarlyReload(s, step)
    ensures Inv(Apply(s, step))
  {
    match step
    case RunMoves(pick, accounts) => RunMoveKeeps(s, pick, accounts);
    case ReloadMoves(pick, accounts) => ReloadMoveKeeps(s, pick, accounts);
    case _ =>
      hide Distinct;
  }

  predicate NoEarlyReload(steps: seq<Step>) {
    steps == []
    || (NoEarlyReload(steps[..|steps| - 1]) && !EarlyReload(Execute(INITIAL, steps[..|steps| - 1]), steps[|steps| - 1]))
  }

  lemma {:induction false} ReachableInv(steps: seq<Step>)
    requires NoEarlyReload(steps)
    ensures Inv(Execute(INITIAL, steps))
  {
    if steps != [] {
      ReachableInv(steps[..|steps| - 1]);
      hide Inv;
      ApplyKeeps(Execute(INITIAL, steps[..|steps| - 1]), steps[|steps| - 1]);
    }
  }

  /** Reload safety: in every interleaving in which no Reload begins during the initial load, an account has one polling goroutine at most. */
  lemma AtMostOneGoroutinePerAccount(steps: seq<Step>)
    requires NoEarlyReload(steps)
    ensures OnePerAccount(Execute(INITIAL, steps).live)
  {
    ReachableInv(steps);
  }

  /**
    wg.Wait does not wait for an agent nobody stopped: whenever a Reload waits,
    every goroutine still alive has been cancelled, or Run's shutdown is about to.
   */
  lemma ReloadWaitsOnlyForCancelled(steps: seq<Step>)
    requires NoEarlyReload(steps)
    ensures var s := Execute(INITIAL, steps);
      s.reload.Waiting? ==> forall i :: i in s.live ==> i in s.cancelled || i in Pending(s.run)
  {
    ReachableInv(steps);
  }

  // The exact extent of the guarantee.

  /** Some interleaving from here on has two live goroutines for one account. */
  ghost predicate CanDouble(s: State) {
    exists steps :: !OnePerAccount(Execute(s, steps).live)
  }

  lemma {:induction false} ExecuteFirst(s: State, step: Step, steps: seq<Step>)
    ensures Execute(s, [step] + steps) == Execute(Apply(s, step), steps)
  {
    var all := [step] + steps;
    if steps == [] {
      assert all[..0] == [] && all == [step];
    } else {
      assert all[..|all| - 1] == [step] + steps[..|steps| - 1];
      ExecuteFirst(s, step, steps[..|steps| - 1]);
    }
  }

  lemma Before(s: State, step: Step)
    requires CanDouble(Apply(s, step))
    ensures CanDouble(s)
  {
    var steps :| !OnePerAccount(Execute(Apply(s, step), steps).live);
    ExecuteFirst(s, step, steps);
  }

  lemma Doubled(s: State, i: nat, j: nat)
    requires i in s.live && j in s.live && i != j && s.live[i] == s.live[j]
    ensures CanDouble(s)
  {
    assert Execute(s, []) == s;
  }

  /** Once nothing more is started by Run, no later Reload is early. */
  lemma LoadedKeeps(s: State, steps: seq<Step>)
    requires Inv(s) && !StillStarting(s.run)
    ensures Inv(Execute(s, steps)) && !StillStarting(Execute(s, steps).run)
  {
    hide Inv;
    if steps != [] {
      var t := Execute(s, steps[..|steps| - 1]);
      LoadedKeeps(s, steps[..|steps| - 1]);
      ApplyKeeps(t, steps[|steps| - 1]);
    }
  }

  /** Where an overlapping Reload looks an account up while Run is on its way to start it. */
  lemma {:induction false} OverlapDoubles(s: State, a: Account)
    requires s.reload == Inserting(a, []) && s.instances == map[] && s.live == map[]
    requires match s.run
      case Querying => true
      case Checking(todo) => todo != [] && todo[0] == a
      case Inserting(account, _) => account == a
      case Spawning(account, id, _) => account == a && id < s.nextId
      case _ => false
    ensures CanDouble(s)
    decreases if s.run.Querying? then 3 else if s.run.Checking? then 2 else if s.run.Inserting? then 1 else 0
  {
    var run := RunMoves(0, [a]);
    if s.run.Spawning? {
      SpawningDoubles(s, a);
    } else if s.run.Inserting? {
      SpawningDoubles(Apply(s, run), a);
      Before(s, run);
    } else {
      OverlapDoubles(Apply(s, run), a);
      Before(s, run);
    }
  }

  /** Both have looked the account up; Run has registered it. */
  lemma SpawningDoubles(s: State, a: Account)
    requires s.reload == Inserting(a, []) && s.run.Spawning? && s.run.account == a
    requires s.live == map[] && s.run.id < s.nextId
    ensures CanDouble(s)
  {
    var run, reload := RunMoves(0, [a]), ReloadMoves(0, [a]);
    var t := Apply(s, run);
    assert t.live == map[s.run.id := a];
    var end := Apply(Apply(t, reload), reload);
    Doubled(end, s.run.id, s.nextId);
    Before(Apply(t, reload), reload);
    Before(t, reload);
    Before(s, run);
  }

  predicate Overlaps(s: State) {
    StillStarting(s.run) && (s.run.Spawning? ==> s.run.id < s.nextId)
  }

  lemma QueryingDoubles(s: State)
    requires Overlaps(s) && s.reload == Querying && s.instances == map[] && s.live == map[]
    ensures CanDouble(s)
  {
    var a := match s.run
      case Checking(todo) => todo[0]
      case Inserting(account, _) => account
      case Spawning(account, _, _) => account
      case _ => 0;
    var reload := ReloadMoves(0, [a]);
    assert [a][1..] == [];
    OverlapDoubles(Apply(Apply(s, reload), reload), a);
    Before(Apply(s, reload), reload);
    Before(s, reload);
  }

  lemma {:induction false} WaitingDoubles(s: State)
    requires Overlaps(s) && s.reload == Waiting && s.instances == map[]
    ensures CanDouble(s)
    decreases |s.live|
  {
    if id :| id in s.live {
      assert (s.live - {id}).Keys == s.live.Keys - {id};
      WaitingDoubles(Apply(s, GoroutineEnds(id)));
      Before(s, GoroutineEnds(id));
    } else {
      QueryingDoubles(Apply(s, ReloadMoves(0, [])));
      Before(s, ReloadMoves(0, []));
    }
  }

  lemma {:induction false} CancellingDoubles(s: State)
    requires Overlaps(s) && s.reload.Cancelling? && s.instances == map[]
    ensures CanDouble(s)
    decreases |Pending(s.reload)|
  {
    if id :| id in s.reload.ids {
      CancellingDoubles(Apply(s, ReloadMoves(id, [])));
      Before(s, ReloadMoves(id, []));
    } else {
      WaitingDoubles(Apply(s, ReloadMoves(0, [])));
      Before(s, ReloadMoves(0, []));
    }
  }

  /**
    Whatever happens afterwards, a Reload called in a state the manager can be in
    never leads to two goroutines for one account, if and only if Run's initial
    load has nothing more to start.
   */
  lemma ReloadIsSafeIffLoaded(s: State)
    requires Inv(s) && s.reload.Idle? && !s.ctxDone
    ensures !CanDouble(Apply(s, ReloadCalled)) <==> !StillStarting(s.run)
  {
    var t := Apply(s, ReloadCalled);
    if StillStarting(s.run) {
      CancellingDoubles(Apply(t, ReloadMoves(0, [])));
      Before(t, ReloadMoves(0, []));
    } else {
      ApplyKeeps(s, ReloadCalled);
      forall steps
        ensures OnePerAccount(Execute(t, steps).live)
      {
        LoadedKeeps(t, steps);
      }
    }
  }
}
