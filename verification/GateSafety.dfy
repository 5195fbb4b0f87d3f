// Safety of the gate: in every interleaving, whatever versions the relaxed loads return, each
// counter is the number of live permits and stays within its limit.
module GateSafety {
  import opened Wrappers
  import opened Gate

  ghost predicate AreUsize(limits: Limits) {
    forall m :: limits.Get(m) <= U64_MAX
  }

  // The permits a future owns at each point of its code.
  function Owned(pc: Pc): PerMethod<nat> {
    match pc
    case Awaiting(m) => PerMethod(0, 0, 0).Set(m, 1)
    case Dropping(m, _) => PerMethod(0, 0, 0).Set(m, 1)
    case _ => PerMethod(0, 0, 0)
  }

  // Where a future whose current call has the given guard can be.
  predicate ControlIsSound(limits: Limits, guard: Option<GuardedMethod>, pc: Pc) {
    match pc
    case Loading(m) => guard == Some(m)
    case Swapping(m, seen, _) => guard == Some(m) && seen < limits.Get(m)
    case Awaiting(m) => guard == Some(m)
    case Forwarding => guard == None
    case Dropping(m, _) => guard == Some(m)
    case Repairing(_, _) => false
    case _ => true
  }

  predicate TaskInv(limits: Limits, task: Task) {
    && task.permits == Owned(task.pc)
    && ControlIsSound(limits, CurrentGuard(limits, task), task.pc)
  }

  // No update is lost and none wraps: neighbouring versions differ by exactly one.
  ghost predicate StepsOfOne(versions: seq<nat>) {
    forall k | 0 < k < |versions| :: versions[k] == versions[k - 1] + 1 || versions[k - 1] == versions[k] + 1
  }

  ghost predicate VersionsInv(versions: seq<nat>, limit: nat, live: nat) {
    && |versions| > 0
    && versions[0] == 0
    && Last(versions) == live
    && (forall k | 0 <= k < |versions| :: versions[k] <= limit)
    && StepsOfOne(versions)
    && (limit == 0 ==> |versions| == 1)
  }

  lemma VersionsGrow(versions: seq<nat>, limit: nat, live: nat, value: nat)
    requires VersionsInv(versions, limit, live) && value <= limit
    requires value == live + 1 || live == value + 1
    ensures VersionsInv(versions + [value], limit, value)
  {
  }

  ghost predicate GateInv(s: System, m: GuardedMethod) {
    VersionsInv(s.versions.Get(m), s.limits.Get(m), Live(s.tasks, m))
  }

  ghost predicate Inv(s: System) {
    && AreUsize(s.limits)
    && (forall m :: GateInv(s, m))
    && (forall t | 0 <= t < |s.tasks| :: TaskInv(s.limits, s.tasks[t]))
  }

  // --- Counting permits ---

  lemma {:induction false} LiveUpdate(tasks: seq<Task>, t: nat, task: Task, m: GuardedMethod)
    requires t < |tasks|
    ensures Live(tasks[t := task], m) == Live(tasks, m) - tasks[t].permits.Get(m) + task.permits.Get(m)
    ensures Live(tasks, m) >= tasks[t].permits.Get(m)
  {
    var last := |tasks| - 1;
    var updated := tasks[t := task];
    if t == last {
      assert updated[..last] == tasks[..last];
    } else {
      LiveUpdate(tasks[..last], t, task, m);
      assert updated[..last] == tasks[..last][t := task];
    }
  }

  lemma LiveSpawn(tasks: seq<Task>, task: Task, m: GuardedMethod)
    ensures Live(tasks + [task], m) == Live(tasks, m) + task.permits.Get(m)
  {
    assert (tasks + [task])[..|tasks|] == tasks;
  }

  // --- One step ---

  // The future's own control flow keeps its permits.
  lemma PollKeepsInv(limits: Limits, task: Task)
    requires TaskInv(limits, task)
    ensures TaskInv(limits, PollTask(limits, task)) && PollTask(limits, task).permits == task.permits
  {
  }

  lemma CompleteKeepsInv(limits: Limits, task: Task)
    requires TaskInv(limits, task)
    ensures TaskInv(limits, CompleteTask(task)) && CompleteTask(task).permits == task.permits
  {
  }

  lemma AbandonKeepsInv(limits: Limits, task: Task)
    requires TaskInv(limits, task)
    ensures TaskInv(limits, AbandonTask(task)) && AbandonTask(task).permits == task.permits
  {
  }

  lemma QuietStepKeepsTask(s: System, a: Action)
    requires Inv(s) && Enabled(s, a) && !a.Spawn? && !a.Swap? && !a.Subtract?
    ensures WriteOf(s, a) == None
    ensures TaskInv(s.limits, TaskAfter(s, a)) && TaskAfter(s, a).permits == s.tasks[a.t].permits
  {
    var task := s.tasks[a.t];
    assert TaskInv(s.limits, task);
    match a
    case Poll(_) => PollKeepsInv(s.limits, task);
    case Complete(_) => CompleteKeepsInv(s.limits, task);
    case Abandon(_) => AbandonKeepsInv(s.limits, task);
    case _ =>
  }

  // A successful exchange adds one to the counter and one permit to the future.
  lemma SwapKeepsTask(s: System, t: nat)
    requires Inv(s) && Enabled(s, Swap(t))
    ensures
      var m := s.tasks[t].pc.m;
      && Counter(s, m) < s.limits.Get(m) && WriteOf(s, Swap(t)) == Some((m, Counter(s, m) + 1))
      && TaskInv(s.limits, TaskAfter(s, Swap(t)))
      && TaskAfter(s, Swap(t)).permits == s.tasks[t].permits.Set(m, s.tasks[t].permits.Get(m) + 1)
  {
    assert TaskInv(s.limits, s.tasks[t]);
  }

  // A dropped permit finds a positive counter and takes one off.
  lemma SubtractKeepsTask(s: System, t: nat)
    requires Inv(s) && Enabled(s, Subtract(t))
    ensures
      var m := s.tasks[t].pc.m;
      && Counter(s, m) > 0 && WriteOf(s, Subtract(t)) == Some((m, Counter(s, m) - 1))
      && TaskInv(s.limits, TaskAfter(s, Subtract(t)))
      && s.tasks[t].permits.Get(m) > 0
      && TaskAfter(s, Subtract(t)).permits == s.tasks[t].permits.Set(m, s.tasks[t].permits.Get(m) - 1)
  {
    var m := s.tasks[t].pc.m;
    assert TaskInv(s.limits, s.tasks[t]) && GateInv(s, m);
    LiveUpdate(s.tasks, t, s.tasks[t], m);
  }

  lemma TaskStepKeepsInv(s: System, a: Action)
    requires Inv(s) && Enabled(s, a) && !a.Spawn?
    ensures TaskInv(s.limits, TaskAfter(s, a))
  {
    match a
    case Swap(t) => SwapKeepsTask(s, t);
    case Subtract(t) => SubtractKeepsTask(s, t);
    case _ => QuietStepKeepsTask(s, a);
  }

  // Every step changes the live permits of each gate by what it writes to the counter.
  lemma LiveFollowsWrites(s: System, a: Action, m: GuardedMethod)
    requires Inv(s) && Enabled(s, a) && !a.Spawn?
    ensures
      var live, live' := Live(s.tasks, m), Live(TasksAfter(s, a), m);
      match WriteOf(s, a)
      case Some((n, value)) =>
        if n == m
        then live' == value <= s.limits.Get(m) && (value == live + 1 || live == value + 1)
        else live' == live
      case None => live' == live
  {
    assert GateInv(s, m);
    LiveUpdate(s.tasks, a.t, TaskAfter(s, a), m);
    match a
    case Swap(t) => SwapKeepsTask(s, t);
    case Subtract(t) => SubtractKeepsTask(s, t);
    case _ => QuietStepKeepsTask(s, a);
  }

  lemma GateStepKeepsInv(s: System, a: Action, m: GuardedMethod)
    requires Inv(s) && Enabled(s, a) && !a.Spawn?
    ensures GateInv(Step(s, a), m)
  {
    assert GateInv(s, m);
    LiveFollowsWrites(s, a, m);
    match WriteOf(s, a)
    case Some((n, value)) =>
      if n == m { VersionsGrow(s.versions.Get(m), s.limits.Get(m), Live(s.tasks, m), value); }
    case None =>
  }

  lemma StepKeepsGate(s: System, a: Action, m: GuardedMethod)
    requires Inv(s)
    ensures GateInv(Step(s, a), m)
  {
    assert GateInv(s, m);
    if Enabled(s, a) {
      if a.Spawn? { LiveSpawn(s.tasks, NewTask(a.job), m); } else { GateStepKeepsInv(s, a, m); }
    }
  }

  lemma StepKeepsTask(s: System, a: Action, t: nat)
    requires Inv(s) && t < |Step(s, a).tasks|
    ensures TaskInv(s.limits, Step(s, a).tasks[t])
  {
    if Enabled(s, a) && !a.Spawn? { TaskStepKeepsInv(s, a); }
  }

  lemma StepKeepsInv(s: System, a: Action)
    requires Inv(s)
    ensures Inv(Step(s, a))
  {
    var s' := Step(s, a);
    forall m ensures GateInv(s', m) {
      StepKeepsGate(s, a, m);
    }
    forall t | 0 <= t < |s'.tasks| ensures TaskInv(s.limits, s'.tasks[t]) {
      StepKeepsTask(s, a, t);
    }
  }

  // --- Every run ---

  lemma {:induction false} RunKeepsInv(limits: Limits, actions: seq<Action>)
    requires AreUsize(limits)
    ensures Inv(Run(Init(limits), actions)) && Run(Init(limits), actions).limits == limits
  {
    if actions == [] {
      forall m ensures GateInv(Init(limits), m) {
      }
    } else {
      var last := |actions| - 1;
      RunKeepsInv(limits, actions[..last]);
      StepKeepsInv(Run(Init(limits), actions[..last]), actions[last]);
    }
  }

  // Each counter is the number of live permits and never exceeds its limit. Hence a permit
  // destructor never finds the counter at zero, and the repair store is never reached.
  lemma CounterIsLivePermits(limits: Limits, actions: seq<Action>, m: GuardedMethod)
    requires AreUsize(limits)
    ensures
      var s := Run(Init(limits), actions);
      && Counter(s, m) == Live(s.tasks, m) <= limits.Get(m)
      && StepsOfOne(s.versions.Get(m))
      && (forall t | 0 <= t < |s.tasks| ::
            && !s.tasks[t].pc.Repairing?
            && (s.tasks[t].pc.Dropping? && s.tasks[t].pc.m == m ==> Counter(s, m) > 0))
  {
    RunKeepsInv(limits, actions);
    var s := Run(Init(limits), actions);
    assert GateInv(s, m);
    forall t | 0 <= t < |s.tasks|
      ensures !s.tasks[t].pc.Repairing?
      ensures s.tasks[t].pc.Dropping? && s.tasks[t].pc.m == m ==> Counter(s, m) > 0
    {
      assert TaskInv(s.limits, s.tasks[t]);
      LiveUpdate(s.tasks, t, s.tasks[t], m);
    }
  }

  // A future owns a permit exactly while its guarded call is in the inner service or the permit's
  // destructor is running: never two, and never one for an unguarded call.
  lemma PermitLifetime(limits: Limits, actions: seq<Action>, t: nat)
    requires AreUsize(limits)
    requires t < |Run(Init(limits), actions).tasks|
    ensures
      var task := Run(Init(limits), actions).tasks[t];
      && task.permits.sendRaw + task.permits.getCount + task.permits.sendRawSync <= 1
      && (forall m :: task.permits.Get(m) > 0 <==>
            CurrentGuard(limits, task) == Some(m) && (task.pc.Awaiting? || task.pc.Dropping?))
      && (task.pc.Forwarding? ==> CurrentGuard(limits, task).None? && task.permits == PerMethod(0, 0, 0))
  {
    RunKeepsInv(limits, actions);
    assert TaskInv(limits, Run(Init(limits), actions).tasks[t]);
  }

  // How many futures are in the inner service under a method's guard.
  function InService(tasks: seq<Task>, m: GuardedMethod): nat {
    if tasks == [] then 0
    else InService(tasks[..|tasks| - 1], m) + (if tasks[|tasks| - 1].pc == Awaiting(m) then 1 else 0)
  }

  lemma {:induction false} InServiceHoldPermits(limits: Limits, tasks: seq<Task>, m: GuardedMethod)
    requires forall t | 0 <= t < |tasks| :: TaskInv(limits, tasks[t])
    ensures InService(tasks, m) <= Live(tasks, m)
  {
    if tasks != [] {
      var last := |tasks| - 1;
      assert TaskInv(limits, tasks[last]);
      InServiceHoldPermits(limits, tasks[..last], m);
    }
  }

  // What the gate is for: at no time is the inner service at work on more guarded calls of a method
  // than its limit.
  lemma InnerServiceIsWithinLimit(limits: Limits, actions: seq<Action>, m: GuardedMethod)
    requires AreUsize(limits)
    ensures InService(Run(Init(limits), actions).tasks, m) <= limits.Get(m)
  {
    RunKeepsInv(limits, actions);
    assert GateInv(Run(Init(limits), actions), m);
    InServiceHoldPermits(limits, Run(Init(limits), actions).tasks, m);
  }

  predicate AtRest(task: Task) {
    !task.pc.Dropping? && !task.pc.Awaiting?
  }

  // When no guarded call is in progress, every counter is back at zero.
  lemma QuiescentMeansZero(limits: Limits, actions: seq<Action>, m: GuardedMethod)
    requires AreUsize(limits)
    requires forall t | 0 <= t < |Run(Init(limits), actions).tasks| :: AtRest(Run(Init(limits), actions).tasks[t])
    ensures Counter(Run(Init(limits), actions), m) == 0
  {
    RunKeepsInv(limits, actions);
    var s := Run(Init(limits), actions);
    assert GateInv(s, m);
    forall t | 0 <= t < |s.tasks| ensures s.tasks[t].permits.Get(m) == 0 {
      assert TaskInv(limits, s.tasks[t]) && AtRest(s.tasks[t]);
    }
    NoPermits(s.tasks, m);
  }

  lemma {:induction false} NoPermits(tasks: seq<Task>, m: GuardedMethod)
    requires forall t | 0 <= t < |tasks| :: tasks[t].permits.Get(m) == 0
    ensures Live(tasks, m) == 0
  {
    if tasks != [] {
      NoPermits(tasks[..|tasks| - 1], m);
    }
  }

  // A method whose limit is zero never touches its gate: the counter keeps its first version.
  lemma DisabledGateIsUntouched(limits: Limits, actions: seq<Action>, m: GuardedMethod)
    requires AreUsize(limits) && limits.Get(m) == 0
    ensures Run(Init(limits), actions).versions.Get(m) == [0]
  {
    RunKeepsInv(limits, actions);
    assert GateInv(Run(Init(limits), actions), m);
  }
}
