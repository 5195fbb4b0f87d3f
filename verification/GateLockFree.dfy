// Lock-freedom of the gate with a bound: a compare-exchange that is lost to another value is
// charged to a change of the counter.
module GateLockFree {
  import opened Gate

  // Per-location coherence: a future never reads a version older than one it has already read. This
  // is all that is asked of the relaxed accesses; the version read need not be current.
  predicate Coherent(s: System, a: Action) {
    Enabled(s, a) ==>
      match a
      case Load(t, version) => version >= s.tasks[t].observed.Get(s.tasks[t].pc.m)
      case SwapFail(t, version) => version >= s.tasks[t].observed.Get(s.tasks[t].pc.m)
      case _ => true
  }

  ghost predicate CoherentRun(s: System, actions: seq<Action>) {
    actions == [] ||
    (CoherentRun(s, actions[..|actions| - 1]) &&
     Coherent(Run(s, actions[..|actions| - 1]), actions[|actions| - 1]))
  }

  function Changes(s: System, m: GuardedMethod): nat {
    if s.versions.Get(m) == [] then 0 else |s.versions.Get(m)| - 1
  }

  // Every lost exchange moved the future on to a newer version.
  predicate Charged(versions: PerMethod<seq<nat>>, task: Task, m: GuardedMethod) {
    && task.failures.Get(m) <= task.observed.Get(m) < |versions.Get(m)|
    && (task.pc.Swapping? && task.pc.m == m ==>
          task.pc.at == task.observed.Get(m) && versions.Get(m)[task.pc.at] == task.pc.seen)
  }

  ghost predicate AllCharged(s: System) {
    forall t, m | 0 <= t < |s.tasks| :: Charged(s.versions, s.tasks[t], m)
  }

  ghost predicate NoneEmpty(s: System) {
    forall m :: s.versions.Get(m) != []
  }

  lemma OwnStepKeepsCharged(s: System, a: Action, m: GuardedMethod)
    requires Enabled(s, a) && !a.Spawn? && Coherent(s, a)
    requires Charged(s.versions, s.tasks[a.t], m)
    ensures Charged(VersionsAfter(s, a), TaskAfter(s, a), m)
  {
    var task := s.tasks[a.t];
    match a
    case Poll(_) => ControlKeepsHistory(s.limits, task, false);
    case Complete(_) => ControlKeepsHistory(s.limits, task, false);
    case Abandon(_) => ControlKeepsHistory(s.limits, task, false);
    case Append(_, fits) => ControlKeepsHistory(s.limits, task, fits);
    case Load(_, _) =>
    case Swap(_) =>
    case SwapFail(_, _) =>
    case Subtract(_) =>
    case Store(_) =>
  }

  lemma ControlKeepsHistory(limits: Limits, task: Task, fits: bool)
    ensures SameHistory(task, PollTask(limits, task))
    ensures SameHistory(task, CompleteTask(task))
    ensures SameHistory(task, AbandonTask(task))
    ensures SameHistory(task, AppendTask(task, fits))
  {
  }

  predicate SameHistory(task: Task, task': Task) {
    && task'.observed == task.observed && task'.failures == task.failures
    && (task'.pc.Swapping? ==> task'.pc == task.pc)
  }

  lemma OtherStepKeepsCharged(s: System, a: Action, task: Task, m: GuardedMethod)
    requires Enabled(s, a) && Charged(s.versions, task, m)
    ensures Charged(VersionsAfter(s, a), task, m)
  {
  }

  lemma StepKeepsCharged(s: System, a: Action)
    requires AllCharged(s) && NoneEmpty(s) && Coherent(s, a)
    ensures AllCharged(Step(s, a)) && NoneEmpty(Step(s, a))
  {
    if Enabled(s, a) {
      var s' := Step(s, a);
      forall t, m | 0 <= t < |s'.tasks| ensures Charged(s'.versions, s'.tasks[t], m) {
        if t < |s.tasks| {
          assert Charged(s.versions, s.tasks[t], m);
          if !a.Spawn? && a.t == t { OwnStepKeepsCharged(s, a, m); }
          else { OtherStepKeepsCharged(s, a, s.tasks[t], m); }
        } else {
          assert s.versions.Get(m) != [];
        }
      }
      forall m ensures s'.versions.Get(m) != [] {
        assert s.versions.Get(m) != [];
      }
    }
  }

  lemma {:induction false} RunKeepsCharged(limits: Limits, actions: seq<Action>)
    requires CoherentRun(Init(limits), actions)
    ensures AllCharged(Run(Init(limits), actions)) && NoneEmpty(Run(Init(limits), actions))
  {
    if actions != [] {
      var last := |actions| - 1;
      RunKeepsCharged(limits, actions[..last]);
      StepKeepsCharged(Run(Init(limits), actions[..last]), actions[last]);
    }
  }

  // The exchange reads a value other than the one it was to replace: the only loss that is charged.
  predicate LosesExchange(s: System, a: Action, t: nat, m: GuardedMethod) {
    a.SwapFail? && a.t == t && Enabled(s, a) && s.tasks[t].pc.m == m &&
    s.versions.Get(m)[a.version] != s.tasks[t].pc.seen
  }

  // How many exchanges a future loses in a run.
  function Losses(s: System, actions: seq<Action>, t: nat, m: GuardedMethod): nat {
    if actions == [] then 0
    else
      var before := actions[..|actions| - 1];
      Losses(s, before, t, m) + (if LosesExchange(Run(s, before), actions[|actions| - 1], t, m) then 1 else 0)
  }

  lemma FailureStep(s: System, a: Action, m: GuardedMethod)
    requires Enabled(s, a) && !a.Spawn?
    ensures TaskAfter(s, a).failures.Get(m) ==
            s.tasks[a.t].failures.Get(m) + (if LosesExchange(s, a, a.t, m) then 1 else 0)
  {
    var task := s.tasks[a.t];
    match a
    case Poll(_) => ControlKeepsHistory(s.limits, task, false);
    case Complete(_) => ControlKeepsHistory(s.limits, task, false);
    case Abandon(_) => ControlKeepsHistory(s.limits, task, false);
    case Append(_, fits) => ControlKeepsHistory(s.limits, task, fits);
    case _ =>
  }

  // The failures a future carries are the exchanges it has lost.
  lemma {:induction false} FailuresAreLosses(limits: Limits, actions: seq<Action>, t: nat, m: GuardedMethod)
    ensures
      var s := Run(Init(limits), actions);
      Losses(Init(limits), actions, t, m) == if t < |s.tasks| then s.tasks[t].failures.Get(m) else 0
  {
    if actions != [] {
      var last := |actions| - 1;
      var s := Run(Init(limits), actions[..last]);
      FailuresAreLosses(limits, actions[..last], t, m);
      if Enabled(s, actions[last]) && !actions[last].Spawn? { FailureStep(s, actions[last], m); }
    }
  }

  // The exchanges lost by the first n futures.
  function TotalLosses(s: System, actions: seq<Action>, n: nat, m: GuardedMethod): nat {
    if n == 0 then 0 else TotalLosses(s, actions, n - 1, m) + Losses(s, actions, n - 1, m)
  }

  lemma {:induction false} TotalsAgree(limits: Limits, actions: seq<Action>, n: nat, m: GuardedMethod)
    requires n <= |Run(Init(limits), actions).tasks|
    ensures TotalLosses(Init(limits), actions, n, m) == TotalFailures(Run(Init(limits), actions).tasks[..n], m)
  {
    if n > 0 {
      var tasks := Run(Init(limits), actions).tasks;
      TotalsAgree(limits, actions, n - 1, m);
      FailuresAreLosses(limits, actions, n - 1, m);
      assert tasks[..n][..n - 1] == tasks[..n - 1];
    }
  }

  function TotalFailures(tasks: seq<Task>, m: GuardedMethod): nat {
    if tasks == [] then 0
    else TotalFailures(tasks[..|tasks| - 1], m) + tasks[|tasks| - 1].failures.Get(m)
  }

  lemma {:induction false} SumBound(tasks: seq<Task>, m: GuardedMethod, bound: nat)
    requires forall t | 0 <= t < |tasks| :: tasks[t].failures.Get(m) <= bound
    ensures TotalFailures(tasks, m) <= |tasks| * bound
  {
    if tasks != [] {
      SumBound(tasks[..|tasks| - 1], m, bound);
    }
  }

  // In any coherent run the exchanges lost on a gate, over all futures, number at most the futures
  // times the changes of that gate's counter, which are its versions but the first; in particular
  // none is lost while nothing changes.
  lemma LostExchangesAreBounded(limits: Limits, actions: seq<Action>, m: GuardedMethod)
    requires CoherentRun(Init(limits), actions)
    ensures
      var s := Run(Init(limits), actions);
      && (forall t | 0 <= t < |s.tasks| :: Losses(Init(limits), actions, t, m) <= |s.versions.Get(m)| - 1)
      && TotalLosses(Init(limits), actions, |s.tasks|, m) <= |s.tasks| * (|s.versions.Get(m)| - 1)
  {
    RunKeepsCharged(limits, actions);
    var s := Run(Init(limits), actions);
    forall t | 0 <= t < |s.tasks| ensures s.tasks[t].failures.Get(m) <= Changes(s, m) {
      assert Charged(s.versions, s.tasks[t], m);
    }
    assert NoneEmpty(s) && s.versions.Get(m) != [];
    SumBound(s.tasks, m, Changes(s, m));
    forall t | 0 <= t < |s.tasks| ensures Losses(Init(limits), actions, t, m) <= Changes(s, m) {
      FailuresAreLosses(limits, actions, t, m);
    }
    TotalsAgree(limits, actions, |s.tasks|, m);
    assert s.tasks[..|s.tasks|] == s.tasks;
  }
}
