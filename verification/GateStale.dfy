// What a refusal of the gate means when a relaxed load may return an old value.
module GateStale {
  import opened Wrappers
  import opened Gate
  import opened GateSafety
  import opened GateLinearizable
  import opened GateLockFree

  // --- The semaphore with late refusals ---

  // Every number of permits there has been, oldest first, as the events tell it.
  function History(events: seq<Event>, m: GuardedMethod): seq<nat> {
    if events == [] then [0]
    else
      var before, e := History(events[..|events| - 1], m), events[|events| - 1];
      if e.Admit? && e.m == m then before + [Last(before) + 1]
      else if e.Release? && e.m == m then before + [MinusOne(Last(before))]
      else before
  }

  // The newest point of that history which the events show a future to have seen.
  function SeenBy(events: seq<Event>, t: nat, m: GuardedMethod): nat {
    if events == [] then 0
    else
      var e := events[|events| - 1];
      if (e.Admit? || e.Release?) && e.t == t && e.m == m then |History(events[..|events| - 1], m)|
      else if e.Refuse? && e.t == t && e.m == m then e.version
      else SeenBy(events[..|events| - 1], t, m)
  }

  // Admissions and releases are those of the atomic semaphore. A refusal needs a full gate only at
  // some point of the history that is not older than what the future has already seen.
  predicate LateAllows(limits: Limits, before: seq<Event>, e: Event) {
    match e
    case Admit(_, m, _) => Last(History(before, m)) < limits.Get(m)
    case Refuse(t, m, _, version) =>
      SeenBy(before, t, m) <= version < |History(before, m)| && History(before, m)[version] >= limits.Get(m)
    case Release(_, m) => Last(History(before, m)) > 0
    case _ => true
  }

  ghost predicate LateLegal(limits: Limits, events: seq<Event>) {
    events == [] ||
    (LateLegal(limits, events[..|events| - 1]) &&
     LateAllows(limits, events[..|events| - 1], events[|events| - 1]))
  }

  // The newest version a future has read, none for one that does not exist yet.
  function Observed(s: System, t: nat, m: GuardedMethod): nat {
    if t < |s.tasks| then s.tasks[t].observed.Get(m) else 0
  }

  // The events tell the versions of the counter, and no future has seen more than it has read.
  ghost predicate TellsOf(s: System, events: seq<Event>, m: GuardedMethod) {
    && History(events, m) == s.versions.Get(m)
    && (forall t :: SeenBy(events, t, m) <= Observed(s, t, m))
  }

  ghost predicate Tells(s: System, events: seq<Event>) {
    forall m :: TellsOf(s, events, m)
  }

  lemma OneMoreEvent(events: seq<Event>, e: Event, m: GuardedMethod)
    ensures History(events + [e], m) ==
            if e.Admit? && e.m == m then History(events, m) + [Last(History(events, m)) + 1]
            else if e.Release? && e.m == m then History(events, m) + [MinusOne(Last(History(events, m)))]
            else History(events, m)
    ensures forall t :: SeenBy(events + [e], t, m) ==
              if (e.Admit? || e.Release?) && e.t == t && e.m == m then |History(events, m)|
              else if e.Refuse? && e.t == t && e.m == m then e.version
              else SeenBy(events, t, m)
  {
    assert (events + [e])[..|events|] == events;
  }

  // What a step writes is what its event tells.
  lemma WritesAreEvents(s: System, a: Action, m: GuardedMethod)
    requires Inv(s) && Enabled(s, a)
    ensures |EventOf(s, a)| <= 1
    ensures VersionsAfter(s, a).Get(m) ==
            if a.Swap? && s.tasks[a.t].pc.m == m then s.versions.Get(m) + [Counter(s, m) + 1]
            else if a.Subtract? && s.tasks[a.t].pc.m == m then s.versions.Get(m) + [MinusOne(Counter(s, m))]
            else s.versions.Get(m)
  {
    match a
    case Swap(t) => SwapKeepsTask(s, t);
    case Subtract(t) => SubtractKeepsTask(s, t);
    case Spawn(_) =>
    case _ => QuietStepKeepsTask(s, a);
  }

  // No future forgets what it has read.
  lemma ObservedGrows(s: System, a: Action, m: GuardedMethod)
    requires Enabled(s, a) && !a.Spawn? && Coherent(s, a)
    requires Charged(s.versions, s.tasks[a.t], m)
    ensures TaskAfter(s, a).observed.Get(m) >= s.tasks[a.t].observed.Get(m)
    ensures (a.Swap? || a.Subtract?) && s.tasks[a.t].pc.m == m ==>
              TaskAfter(s, a).observed.Get(m) == |s.versions.Get(m)|
    ensures Refuses(s, a) && s.tasks[a.t].pc.m == m ==> TaskAfter(s, a).observed.Get(m) == a.version
  {
    var task := s.tasks[a.t];
    match a
    case Poll(_) => ControlKeepsHistory(s.limits, task, false);
    case Complete(_) => ControlKeepsHistory(s.limits, task, false);
    case Abandon(_) => ControlKeepsHistory(s.limits, task, false);
    case Append(_, fits) => ControlKeepsHistory(s.limits, task, fits);
    case _ =>
  }

  lemma HistoryInStep(s: System, a: Action, events: seq<Event>, m: GuardedMethod)
    requires Enabled(s, a)
    ensures History(events + EventOf(s, a), m) ==
            if a.Swap? && s.tasks[a.t].pc.m == m then History(events, m) + [Last(History(events, m)) + 1]
            else if a.Subtract? && s.tasks[a.t].pc.m == m then History(events, m) + [MinusOne(Last(History(events, m)))]
            else History(events, m)
  {
    DecisionStep(s, a, 0);
    if EventOf(s, a) == [] {
      assert events + EventOf(s, a) == events;
    } else {
      assert EventOf(s, a) == [EventOf(s, a)[0]];
      OneMoreEvent(events, EventOf(s, a)[0], m);
    }
  }

  lemma StepTellsHistory(s: System, a: Action, events: seq<Event>, m: GuardedMethod)
    requires Inv(s) && History(events, m) == s.versions.Get(m)
    ensures History(events + EventOf(s, a), m) == Step(s, a).versions.Get(m)
  {
    if Enabled(s, a) {
      HistoryInStep(s, a, events, m);
      WritesAreEvents(s, a, m);
      assert Step(s, a).versions == VersionsAfter(s, a);
    } else {
      assert events + EventOf(s, a) == events;
    }
  }

  // What a step lets its own future be seen to have seen; the others show nothing new.
  lemma SeenInStep(s: System, a: Action, events: seq<Event>, t: nat, m: GuardedMethod)
    requires Enabled(s, a)
    ensures SeenBy(events + EventOf(s, a), t, m) ==
            if a.Spawn? || a.t != t || (!s.tasks[t].pc.Loading? && !a.Swap? && !a.Subtract?) then SeenBy(events, t, m)
            else if (a.Swap? || a.Subtract?) && s.tasks[t].pc.m == m then |History(events, m)|
            else if Refuses(s, a) && s.tasks[t].pc.m == m then a.version
            else SeenBy(events, t, m)
  {
    DecisionStep(s, a, t);
    if EventOf(s, a) == [] {
      assert events + EventOf(s, a) == events;
    } else {
      assert EventOf(s, a) == [EventOf(s, a)[0]];
      OneMoreEvent(events, EventOf(s, a)[0], m);
    }
  }

  lemma StepTellsSeen(s: System, a: Action, events: seq<Event>, t: nat, m: GuardedMethod)
    requires Inv(s) && AllCharged(s) && Coherent(s, a) && TellsOf(s, events, m)
    ensures SeenBy(events + EventOf(s, a), t, m) <= Observed(Step(s, a), t, m)
  {
    assert SeenBy(events, t, m) <= Observed(s, t, m);
    if !Enabled(s, a) {
      assert events + EventOf(s, a) == events;
    } else {
      SeenInStep(s, a, events, t, m);
      if !a.Spawn? {
        assert Charged(s.versions, s.tasks[a.t], m);
        ObservedGrows(s, a, m);
      }
    }
  }

  lemma StepIsAllowed(s: System, a: Action, events: seq<Event>)
    requires Inv(s) && AllCharged(s) && Coherent(s, a) && Tells(s, events) && EventOf(s, a) != []
    ensures LateAllows(s.limits, events, EventOf(s, a)[0])
  {
    if a.Load? || a.Swap? || a.Subtract? {
      var m := s.tasks[a.t].pc.m;
      assert TellsOf(s, events, m);
      assert SeenBy(events, a.t, m) <= Observed(s, a.t, m);
      if a.Swap? { SwapKeepsTask(s, a.t); }
      if a.Subtract? { SubtractKeepsTask(s, a.t); }
    }
  }

  lemma StepTells(s: System, a: Action, events: seq<Event>)
    requires Inv(s) && AllCharged(s) && Coherent(s, a) && Tells(s, events)
    ensures Tells(Step(s, a), events + EventOf(s, a))
  {
    forall m ensures TellsOf(Step(s, a), events + EventOf(s, a), m) {
      assert TellsOf(s, events, m);
      StepTellsHistory(s, a, events, m);
      forall t ensures SeenBy(events + EventOf(s, a), t, m) <= Observed(Step(s, a), t, m) {
        StepTellsSeen(s, a, events, t, m);
      }
    }
  }

  // Whatever the relaxed loads return, every coherent run is a run of the semaphore with late
  // refusals: admissions and releases are never late, and a refusal rests on a gate that was full
  // at a time the future has not yet seen pass.
  lemma {:induction false} RunRefinesLateSemaphore(limits: Limits, actions: seq<Action>)
    requires AreUsize(limits) && CoherentRun(Init(limits), actions)
    ensures LateLegal(limits, Trace(Init(limits), actions))
    ensures Tells(Run(Init(limits), actions), Trace(Init(limits), actions))
  {
    var s0 := Init(limits);
    if actions == [] {
      forall m ensures TellsOf(s0, [], m) {
      }
    } else {
      var last := |actions| - 1;
      var s, events := Run(s0, actions[..last]), Trace(s0, actions[..last]);
      RunRefinesLateSemaphore(limits, actions[..last]);
      RunKeepsInv(limits, actions[..last]);
      RunKeepsCharged(limits, actions[..last]);
      StepTells(s, actions[last], events);
      LegalStep(s, actions[last], limits, events);
    }
  }

  lemma LegalStep(s: System, a: Action, limits: Limits, events: seq<Event>)
    requires s.limits == limits && LateLegal(limits, events)
    requires Inv(s) && AllCharged(s) && Coherent(s, a) && Tells(s, events)
    ensures LateLegal(limits, events + EventOf(s, a))
  {
    DecisionStep(s, a, 0);
    if EventOf(s, a) == [] {
      assert events + EventOf(s, a) == events;
    } else {
      StepIsAllowed(s, a, events);
      assert EventOf(s, a) == [EventOf(s, a)[0]];
      assert (events + EventOf(s, a))[..|events|] == events;
    }
  }

  // --- A stale refusal ---

  lemma CoherentOneMore(s: System, actions: seq<Action>, a: Action)
    ensures CoherentRun(s, actions + [a]) <==> CoherentRun(s, actions) && Coherent(Run(s, actions), a)
  {
    assert (actions + [a])[..|actions|] == actions;
  }

  lemma {:induction false} CoherentConcat(s: System, p: seq<Action>, q: seq<Action>)
    ensures CoherentRun(s, p + q) <==> CoherentRun(s, p) && CoherentRun(Run(s, p), q)
  {
    if q == [] {
      assert p + q == p;
    } else {
      var last := |q| - 1;
      CoherentConcat(s, p, q[..last]);
      RunConcat(s, p, q[..last]);
      assert p + q == (p + q[..last]) + [q[last]];
      CoherentOneMore(s, p + q[..last], q[last]);
    }
  }

  const CALL := Single(Some(SendRawTransaction))
  const ACQUIRE: seq<Action> := [Spawn(CALL), Poll(0), Load(0, 0), Swap(0)]
  const SERVE_THEN_CALL: seq<Action> := [Complete(0), Subtract(0), Spawn(CALL), Poll(1)]

  lemma RunFour(s: System, a: Action, b: Action, c: Action, d: Action)
    ensures Run(s, [a, b, c, d]) == Step(Step(Step(Step(s, a), b), c), d)
    ensures CoherentRun(s, [a, b, c, d]) <==>
            && Coherent(s, a) && Coherent(Step(s, a), b) && Coherent(Step(Step(s, a), b), c)
            && Coherent(Step(Step(Step(s, a), b), c), d)
  {
    OneMore(s, [], a);
    assert [] + [a] == [a];
    OneMore(s, [a], b);
    assert [a] + [b] == [a, b];
    OneMore(s, [a, b], c);
    assert [a, b] + [c] == [a, b, c];
    OneMore(s, [a, b, c], d);
    assert [a, b, c] + [d] == [a, b, c, d];
  }

  lemma OneMore(s: System, actions: seq<Action>, a: Action)
    ensures Run(s, actions + [a]) == Step(Run(s, actions), a)
    ensures CoherentRun(s, actions + [a]) <==> CoherentRun(s, actions) && Coherent(Run(s, actions), a)
  {
    RunOneMore(s, actions, a);
    CoherentOneMore(s, actions, a);
  }

  lemma {:induction false} RunConcat(s: System, p: seq<Action>, q: seq<Action>)
    ensures Run(s, p + q) == Run(Run(s, p), q)
  {
    if q == [] {
      assert p + q == p;
    } else {
      var last := |q| - 1;
      RunConcat(s, p, q[..last]);
      assert p + q == (p + q[..last]) + [q[last]];
      RunOneMore(s, p + q[..last], q[last]);
    }
  }

  lemma AcquireRun(limits: Limits)
    requires limits == PerMethod(1, 0, 0)
    ensures
      var s := Run(Init(limits), ACQUIRE);
      s.limits == limits && s.versions.sendRaw == [0, 1] && |s.tasks| == 1 &&
      s.tasks[0].pc == Awaiting(SendRawTransaction) && CoherentRun(Init(limits), ACQUIRE)
  {
    var s1 := Step(Init(limits), Spawn(CALL));
    var s2 := Step(s1, Poll(0));
    var s3 := Step(s2, Load(0, 0));
    RunFour(Init(limits), Spawn(CALL), Poll(0), Load(0, 0), Swap(0));
    assert s1.tasks == [NewTask(CALL)];
    assert s2.tasks[0].pc == Loading(SendRawTransaction);
    assert s3.tasks[0].pc == Swapping(SendRawTransaction, 0, 0);
  }

  lemma ServeRun(s: System)
    requires s.limits == PerMethod(1, 0, 0) && s.versions.sendRaw == [0, 1] && |s.tasks| == 1
    requires s.tasks[0].pc == Awaiting(SendRawTransaction)
    ensures
      var s' := Run(s, SERVE_THEN_CALL);
      s'.limits == s.limits && s'.versions.sendRaw == [0, 1, 0] && |s'.tasks| == 2 &&
      s'.tasks[1].pc == Loading(SendRawTransaction) && s'.tasks[1].observed == PerMethod(0, 0, 0) &&
      CoherentRun(s, SERVE_THEN_CALL)
  {
    var s1 := Step(s, Complete(0));
    var s2 := Step(s1, Subtract(0));
    var s3 := Step(s2, Spawn(CALL));
    RunFour(s, Complete(0), Subtract(0), Spawn(CALL), Poll(1));
    assert s1.tasks[0].pc == Dropping(SendRawTransaction, false);
    assert s2.versions.sendRaw == [0, 1, 0];
    assert s3.tasks[1] == NewTask(CALL);
  }

  // With limit 1, after one call has come and gone, the next can be refused on a stale version
  // although nothing is in flight: the atomic semaphore would have admitted it. The run is coherent,
  // so a relaxed load may return that version.
  lemma StaleLoadCanRefuseAnIdleGate()
    ensures
      var limits, actions := PerMethod(1, 0, 0), ACQUIRE + SERVE_THEN_CALL;
      var s := Run(Init(limits), actions);
      && Live(s.tasks, SendRawTransaction) == 0
      && Refuses(s, Load(1, 1))
      && CoherentRun(Init(limits), actions + [Load(1, 1)])
      && !AtomicLegal(limits, Trace(Init(limits), actions + [Load(1, 1)]))
  {
    var limits, actions := PerMethod(1, 0, 0), ACQUIRE + SERVE_THEN_CALL;
    AcquireRun(limits);
    ServeRun(Run(Init(limits), ACQUIRE));
    RunConcat(Init(limits), ACQUIRE, SERVE_THEN_CALL);
    CoherentConcat(Init(limits), ACQUIRE, SERVE_THEN_CALL);
    CoherentOneMore(Init(limits), actions, Load(1, 1));
    RunKeepsInv(limits, actions);
    assert GateInv(Run(Init(limits), actions), SendRawTransaction);
    RunRefinesSemaphore(limits, actions + [Load(1, 1)]);
    assert (actions + [Load(1, 1)])[..|actions|] == actions;
  }
}
