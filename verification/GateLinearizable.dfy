// The compare-exchange loop refines an atomic counting semaphore.
module GateLinearizable {
  import opened Gate
  import opened GateSafety

  // What a run shows of try_acquire and of the permit destructor. The point of the event is the
  // linearization point: the successful exchange, the refusing load, the subtraction. `entry` is
  // the batch entry the future is at, and `version` what the refusing load returned. Of the rest it
  // shows what the inner service has done for an entry (Serve) or a whole batch (ServeBatch), that
  // the response to an entry is answered or appended, and that a suspended future is dropped.
  datatype Event =
    | Begin(t: nat, m: GuardedMethod)
    | Admit(t: nat, m: GuardedMethod, entry: nat)
    | Refuse(t: nat, m: GuardedMethod, entry: nat, version: nat)
    | Release(t: nat, m: GuardedMethod)
    | Serve(t: nat, entry: nat)
    | ServeBatch(t: nat)
    | Answer(t: nat, entry: nat)
    | Drop(t: nat)

  predicate Refuses(s: System, a: Action) {
    && Enabled(s, a) && a.Load?
    && s.versions.Get(s.tasks[a.t].pc.m)[a.version] >= s.limits.Get(s.tasks[a.t].pc.m)
  }

  // Where a future can be dropped: before it is first polled, and at the await points.
  predicate Suspended(pc: Pc) {
    pc.Fresh? || pc.Awaiting? || pc.Forwarding? || pc.Notifying? || pc.Delegated?
  }

  function EventOf(s: System, a: Action): seq<Event> {
    if !Enabled(s, a) then []
    else match a
      case Poll(t) =>
        var polled := PollTask(s.limits, s.tasks[t]);
        if polled.pc.Loading? && !s.tasks[t].pc.Loading? then [Begin(t, polled.pc.m)] else []
      case Load(t, version) =>
        if Refuses(s, a) then [Refuse(t, s.tasks[t].pc.m, s.tasks[t].next, version)] else []
      case Swap(t) => [Admit(t, s.tasks[t].pc.m, s.tasks[t].next)]
      case Subtract(t) => [Release(t, s.tasks[t].pc.m)]
      case Complete(t) =>
        var pc := s.tasks[t].pc;
        if pc.Awaiting? || pc.Forwarding? || pc.Notifying? then [Serve(t, s.tasks[t].next)]
        else if pc.Delegated? then [ServeBatch(t)]
        else []
      case Append(t, _) => if s.tasks[t].pc.Appending? then [Answer(t, s.tasks[t].next)] else []
      case Abandon(t) => if Suspended(s.tasks[t].pc) then [Drop(t)] else []
      case _ => []
  }

  function Trace(s: System, actions: seq<Action>): seq<Event> {
    if actions == [] then []
    else
      var last := |actions| - 1;
      Trace(s, actions[..last]) + EventOf(Run(s, actions[..last]), actions[last])
  }

  // --- The atomic counting semaphore ---

  // Its verdict is forced: it admits exactly when a permit is free.
  predicate AtomicAllows(limits: Limits, held: PerMethod<nat>, e: Event) {
    match e
    case Admit(_, m, _) => held.Get(m) < limits.Get(m)
    case Refuse(_, m, _, _) => held.Get(m) >= limits.Get(m)
    case Release(_, m) => held.Get(m) > 0
    case _ => true
  }

  function AtomicNext(held: PerMethod<nat>, e: Event): PerMethod<nat> {
    match e
    case Admit(_, m, _) => held.Set(m, held.Get(m) + 1)
    case Release(_, m) => held.Set(m, if held.Get(m) > 0 then held.Get(m) - 1 else 0)
    case _ => held
  }

  function AtomicHeld(events: seq<Event>): PerMethod<nat> {
    if events == [] then PerMethod(0, 0, 0)
    else AtomicNext(AtomicHeld(events[..|events| - 1]), events[|events| - 1])
  }

  ghost predicate AtomicLegal(limits: Limits, events: seq<Event>) {
    events == [] ||
    (AtomicLegal(limits, events[..|events| - 1]) &&
     AtomicAllows(limits, AtomicHeld(events[..|events| - 1]), events[|events| - 1]))
  }

  // --- Simulation ---

  // The semaphore holds what the live permits say.
  ghost predicate Matches(s: System, held: PerMethod<nat>) {
    forall m :: held.Get(m) == Live(s.tasks, m)
  }

  // Every load that refuses does so while the gate really is full.
  ghost predicate RefusalsAreCurrent(s: System, actions: seq<Action>) {
    actions == [] ||
    (var last := |actions| - 1;
     var now := Run(s, actions[..last]);
     && RefusalsAreCurrent(s, actions[..last])
     && (Refuses(now, actions[last]) ==>
           Counter(now, now.tasks[actions[last].t].pc.m) >= now.limits.Get(now.tasks[actions[last].t].pc.m)))
  }

  lemma HeldAfterEvent(held: PerMethod<nat>, e: Event, m: GuardedMethod)
    requires e.Release? ==> held.Get(e.m) > 0
    ensures AtomicNext(held, e).Get(m) ==
            held.Get(m) + (if e.Admit? && e.m == m then 1 else 0) - (if e.Release? && e.m == m then 1 else 0)
  {
  }

  lemma EventsOfWrites(s: System, a: Action)
    requires Enabled(s, a)
    ensures a.Swap? ==> EventOf(s, a) == [Admit(a.t, s.tasks[a.t].pc.m, s.tasks[a.t].next)]
    ensures a.Subtract? ==> EventOf(s, a) == [Release(a.t, s.tasks[a.t].pc.m)]
    ensures !a.Swap? && !a.Subtract? ==> EventOf(s, a) == [] || (!EventOf(s, a)[0].Admit? && !EventOf(s, a)[0].Release?)
  {
  }

  lemma HeldAfterStep(s: System, a: Action, held: PerMethod<nat>, m: GuardedMethod)
    requires Inv(s) && Matches(s, held)
    ensures
      var after := if EventOf(s, a) == [] then held else AtomicNext(held, EventOf(s, a)[0]);
      after.Get(m) == Live(Step(s, a).tasks, m)
  {
    assert held.Get(m) == Live(s.tasks, m);
    if Enabled(s, a) {
      EventsOfWrites(s, a);
      StepChangesLive(s, a, m);
      if a.Subtract? {
        var n := s.tasks[a.t].pc.m;
        StepChangesLive(s, a, n);
        assert held.Get(n) == Live(s.tasks, n);
      }
      if EventOf(s, a) != [] { HeldAfterEvent(held, EventOf(s, a)[0], m); }
    }
  }

  // The semaphore's verdict on the event of a step, given that it holds the live permits.
  lemma VerdictOfStep(s: System, a: Action, held: PerMethod<nat>)
    requires Inv(s) && Matches(s, held) && EventOf(s, a) != []
    ensures AtomicAllows(s.limits, held, EventOf(s, a)[0]) <==>
            (Refuses(s, a) ==> Counter(s, s.tasks[a.t].pc.m) >= s.limits.Get(s.tasks[a.t].pc.m))
  {
    if a.Load? || a.Swap? || a.Subtract? {
      var m := s.tasks[a.t].pc.m;
      assert held.Get(m) == Live(s.tasks, m) && GateInv(s, m);
      StepChangesLive(s, a, m);
    }
  }

  lemma StepChangesLive(s: System, a: Action, m: GuardedMethod)
    requires Inv(s) && Enabled(s, a)
    ensures Live(Step(s, a).tasks, m) ==
            Live(s.tasks, m) + (if a.Swap? && s.tasks[a.t].pc.m == m then 1 else 0)
                             - (if a.Subtract? && s.tasks[a.t].pc.m == m then 1 else 0)
    ensures a.Swap? && s.tasks[a.t].pc.m == m ==> Live(s.tasks, m) < s.limits.Get(m)
    ensures a.Subtract? && s.tasks[a.t].pc.m == m ==> Live(s.tasks, m) > 0
  {
    assert GateInv(s, m);
    match a
    case Spawn(job) => LiveSpawn(s.tasks, NewTask(job), m);
    case Swap(t) =>
      SwapKeepsTask(s, t);
      LiveFollowsWrites(s, a, m);
    case Subtract(t) =>
      SubtractKeepsTask(s, t);
      LiveFollowsWrites(s, a, m);
    case _ =>
      QuietStepKeepsTask(s, a);
      LiveFollowsWrites(s, a, m);
  }

  // A run is a run of the atomic semaphore, event by event and verdict by verdict, exactly when no
  // refusal rests on a stale version; either way the semaphore ends up holding the live permits.
  lemma {:induction false} RunRefinesSemaphore(limits: Limits, actions: seq<Action>)
    requires AreUsize(limits)
    ensures AtomicLegal(limits, Trace(Init(limits), actions)) <==> RefusalsAreCurrent(Init(limits), actions)
    ensures Matches(Run(Init(limits), actions), AtomicHeld(Trace(Init(limits), actions)))
  {
    var s0 := Init(limits);
    if actions != [] {
      var last := |actions| - 1;
      var s, events := Run(s0, actions[..last]), Trace(s0, actions[..last]);
      RunRefinesSemaphore(limits, actions[..last]);
      RunKeepsInv(limits, actions[..last]);
      var more := EventOf(s, actions[last]);
      forall m
        ensures Live(Run(s0, actions).tasks, m) ==
                (if more == [] then AtomicHeld(events) else AtomicNext(AtomicHeld(events), more[0])).Get(m)
      {
        HeldAfterStep(s, actions[last], AtomicHeld(events), m);
      }
      if more != [] { VerdictOfStep(s, actions[last], AtomicHeld(events)); }
      if more == [] {
        assert Trace(s0, actions) == events;
      } else {
        assert Trace(s0, actions) == events + [more[0]];
        assert (events + [more[0]])[..|events|] == events;
      }
    }
  }

  // Loads that return the current version.
  ghost predicate LoadsAreCurrent(s: System, actions: seq<Action>) {
    actions == [] ||
    (var last := |actions| - 1;
     var now := Run(s, actions[..last]);
     && LoadsAreCurrent(s, actions[..last])
     && (Enabled(now, actions[last]) && actions[last].Load? ==>
           actions[last].version == |now.versions.Get(now.tasks[actions[last].t].pc.m)| - 1))
  }

  lemma {:induction false} Linearizable(limits: Limits, actions: seq<Action>)
    requires AreUsize(limits) && LoadsAreCurrent(Init(limits), actions)
    ensures AtomicLegal(limits, Trace(Init(limits), actions))
  {
    CurrentLoadsRefuseCurrently(limits, actions);
    RunRefinesSemaphore(limits, actions);
  }

  lemma {:induction false} CurrentLoadsRefuseCurrently(limits: Limits, actions: seq<Action>)
    requires LoadsAreCurrent(Init(limits), actions)
    ensures RefusalsAreCurrent(Init(limits), actions)
  {
    if actions != [] {
      CurrentLoadsRefuseCurrently(limits, actions[..|actions| - 1]);
    }
  }

  // --- Longer runs ---

  lemma RunOneMore(s: System, actions: seq<Action>, a: Action)
    ensures Run(s, actions + [a]) == Step(Run(s, actions), a)
    ensures Trace(s, actions + [a]) == Trace(s, actions) + EventOf(Run(s, actions), a)
  {
    assert (actions + [a])[..|actions|] == actions;
  }

  // --- One decision for each call of try_acquire ---

  function Begins(events: seq<Event>, t: nat): nat {
    if events == [] then 0
    else
      var e := events[|events| - 1];
      Begins(events[..|events| - 1], t) + (if e.Begin? && e.t == t then 1 else 0)
  }

  function Decisions(events: seq<Event>, t: nat): nat {
    if events == [] then 0
    else
      var e := events[|events| - 1];
      Decisions(events[..|events| - 1], t) + (if (e.Admit? || e.Refuse?) && e.t == t then 1 else 0)
  }

  predicate InLoop(pc: Pc) {
    pc.Loading? || pc.Swapping?
  }

  function Pending(s: System, t: nat): nat {
    if t < |s.tasks| && InLoop(s.tasks[t].pc) then 1 else 0
  }

  // In every prefix of every run a future has decided every try_acquire it began, but for one still
  // in the loop: so each completed call has exactly one decision, after it began.
  lemma {:induction false} OneDecisionPerCall(limits: Limits, actions: seq<Action>, t: nat)
    ensures Begins(Trace(Init(limits), actions), t) ==
            Decisions(Trace(Init(limits), actions), t) + Pending(Run(Init(limits), actions), t)
  {
    var s0 := Init(limits);
    if actions != [] {
      var last := |actions| - 1;
      var s, events := Run(s0, actions[..last]), Trace(s0, actions[..last]);
      OneDecisionPerCall(limits, actions[..last], t);
      DecisionStep(s, actions[last], t);
      var more := EventOf(s, actions[last]);
      if more == [] {
        assert Trace(s0, actions) == events;
      } else {
        assert Trace(s0, actions) == events + [more[0]];
        assert (events + [more[0]])[..|events|] == events;
      }
    }
  }

  lemma DecisionStep(s: System, a: Action, t: nat)
    ensures |EventOf(s, a)| <= 1
    ensures Begins(EventOf(s, a), t) + Pending(s, t) == Decisions(EventOf(s, a), t) + Pending(Step(s, a), t)
  {
    if Enabled(s, a) && !a.Spawn? {
      LoopEntryAndExit(s, a);
      if EventOf(s, a) != [] { assert EventOf(s, a)[..0] == []; }
    }
  }

  // A future enters the loop with a Begin and leaves it with an Admit or a Refuse.
  lemma LoopEntryAndExit(s: System, a: Action)
    requires Enabled(s, a) && !a.Spawn?
    ensures
      var was, now := InLoop(s.tasks[a.t].pc), InLoop(TaskAfter(s, a).pc);
      if EventOf(s, a) == [] then was == now
      else
        var e := EventOf(s, a)[0];
        && |EventOf(s, a)| == 1 && e.t == a.t
        && (if e.Begin? then !was && now else if e.Admit? || e.Refuse? then was && !now else was == now)
  {
    var task := s.tasks[a.t];
    match a
    case Poll(_) => ControlKeepsLoop(s.limits, task, false);
    case Complete(_) => ControlKeepsLoop(s.limits, task, false);
    case Abandon(_) => ControlKeepsLoop(s.limits, task, false);
    case Append(_, fits) => ControlKeepsLoop(s.limits, task, fits);
    case _ =>
  }

  // The future's own control flow enters the loop only by a poll from outside it, and never leaves it.
  lemma ControlKeepsLoop(limits: Limits, task: Task, fits: bool)
    ensures PollTask(limits, task).pc.Swapping? <==> task.pc.Swapping?
    ensures task.pc.Loading? ==> PollTask(limits, task) == task
    ensures InLoop(CompleteTask(task).pc) <==> InLoop(task.pc)
    ensures InLoop(AbandonTask(task).pc) <==> InLoop(task.pc)
    ensures InLoop(AppendTask(task, fits).pc) <==> InLoop(task.pc)
  {
  }
}
