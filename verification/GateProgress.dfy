// No future of the gate ever depends on another: left alone, each comes to its end.
module GateProgress {
  import opened Gate
  import opened GateSafety
  import opened GateLinearizable
  import opened GateLockFree
  import opened GateAnswers

  function CurrentVersion(s: System, m: GuardedMethod): nat
    requires s.versions.Get(m) != []
  {
    |s.versions.Get(m)| - 1
  }

  // The next step of a future that runs alone: its loads see the current version, its exchanges
  // fail only if the value they were to replace is no longer current, the inner service answers, and
  // every answer fits.
  function OwnStep(s: System, t: nat): Action
    requires t < |s.tasks| && forall m :: s.versions.Get(m) != []
  {
    match s.tasks[t].pc
    case Fresh => Poll(t)
    case Ready => Poll(t)
    case Loading(m) => Load(t, CurrentVersion(s, m))
    case Swapping(m, seen, _) => if Counter(s, m) == seen then Swap(t) else SwapFail(t, CurrentVersion(s, m))
    case Awaiting(_) => Complete(t)
    case Forwarding => Complete(t)
    case Notifying => Complete(t)
    case Delegated => Complete(t)
    case Dropping(_, _) => Subtract(t)
    case Repairing(_, _) => Store(t)
    case Appending => Append(t, true)
    case Gone => Poll(t)
  }

  // How many own steps a future has before it at most, if nobody else moves.
  function Remaining(s: System, t: nat): nat
    requires t < |s.tasks|
  {
    var task := s.tasks[t];
    10 * (if task.next <= |EntriesOf(task.job)| then |EntriesOf(task.job)| - task.next else 0) +
    match task.pc
    case Fresh => 10
    case Ready => 9
    case Loading(_) => 7
    case Swapping(m, seen, _) => if Counter(s, m) == seen then 6 else 8
    case Awaiting(_) => 5
    case Forwarding => 5
    case Notifying => 5
    case Delegated => 5
    case Dropping(_, _) => 4
    case Repairing(_, _) => 3
    case Appending => 2
    case Gone => 0
  }

  // The own step of a living future can be taken and is coherent.
  lemma OwnStepIsThere(s: System, t: nat, events: seq<Event>)
    requires Inv(s) && AllCharged(s) && NoneEmpty(s) && t < |s.tasks| && !s.tasks[t].pc.Gone?
    requires Accounted(s.limits, s.tasks[t], t, events)
    ensures Enabled(s, OwnStep(s, t)) && Coherent(s, OwnStep(s, t))
    ensures !OwnStep(s, t).Spawn? && !OwnStep(s, t).Abandon? && OwnStep(s, t).t == t
  {
    if s.tasks[t].pc.Loading? || s.tasks[t].pc.Swapping? {
      assert Charged(s.versions, s.tasks[t], s.tasks[t].pc.m);
    }
  }

  // It brings the end of its future nearer.
  lemma OwnStepProgresses(s: System, t: nat, events: seq<Event>)
    requires Inv(s) && AllCharged(s) && NoneEmpty(s) && t < |s.tasks| && !s.tasks[t].pc.Gone?
    requires Accounted(s.limits, s.tasks[t], t, events)
    ensures t < |Step(s, OwnStep(s, t)).tasks|
    ensures Remaining(Step(s, OwnStep(s, t)), t) < Remaining(s, t)
  {
    OwnStepIsThere(s, t, events);
    assert TaskInv(s.limits, s.tasks[t]);
    WhereaboutsStep(s, OwnStep(s, t));
    if OwnStep(s, t).Subtract? { SubtractKeepsTask(s, t); }
  }

  lemma RunOwnStep(limits: Limits, actions: seq<Action>, t: nat) returns (a: Action)
    requires AreUsize(limits) && CoherentRun(Init(limits), actions)
    requires t < |Run(Init(limits), actions).tasks| && !Run(Init(limits), actions).tasks[t].pc.Gone?
    ensures !a.Spawn? && !a.Abandon? && a.t == t && CoherentRun(Init(limits), actions + [a])
    ensures t < |Run(Init(limits), actions + [a]).tasks|
    ensures Remaining(Run(Init(limits), actions + [a]), t) < Remaining(Run(Init(limits), actions), t)
  {
    var s := Run(Init(limits), actions);
    RunAccounts(limits, actions, t);
    RunKeepsInv(limits, actions);
    RunKeepsCharged(limits, actions);
    a := OwnStep(s, t);
    OwnStepIsThere(s, t, Trace(Init(limits), actions));
    OwnStepProgresses(s, t, Trace(Init(limits), actions));
    RunOneMore(Init(limits), actions, a);
    assert (actions + [a])[..|actions|] == actions;
  }

  // From every reachable state, and without any other future taking a step, each future comes to its
  // end without being dropped. So no future waits for another, whatever the others have left behind.
  lemma {:induction false} AloneItFinishes(limits: Limits, actions: seq<Action>, t: nat) returns (own: seq<Action>)
    requires AreUsize(limits) && CoherentRun(Init(limits), actions)
    requires t < |Run(Init(limits), actions).tasks|
    ensures CoherentRun(Init(limits), actions + own)
    ensures forall k | 0 <= k < |own| :: !own[k].Spawn? && !own[k].Abandon? && own[k].t == t
    ensures t < |Run(Init(limits), actions + own).tasks| && Run(Init(limits), actions + own).tasks[t].pc.Gone?
    decreases Remaining(Run(Init(limits), actions), t)
  {
    if Run(Init(limits), actions).tasks[t].pc.Gone? {
      own := [];
      assert actions + own == actions;
    } else {
      var a := RunOwnStep(limits, actions, t);
      var rest := AloneItFinishes(limits, actions + [a], t);
      own := [a] + rest;
      assert actions + own == actions + [a] + rest;
    }
  }
}
