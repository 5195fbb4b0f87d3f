// What becomes of every entry of every request: a future that is not dropped hands each call and each
// notification to the inner service at most once, answers what is to be answered exactly once, and
// ends only when it is through.
module GateAnswers {
  import opened Gate
  import opened GateSafety
  import opened GateLinearizable

  // --- What the events tell of one entry ---

  // How often an entry was admitted, refused, served by the inner service, and answered.
  datatype Tally = Tally(admitted: nat, refused: nat, served: nat, answered: nat)

  const NOTHING := Tally(0, 0, 0, 0)

  function TallyWith(y: Tally, e: Event, t: nat, k: nat): Tally {
    match e
    case Admit(u, _, n) => if u == t && n == k then y.(admitted := y.admitted + 1) else y
    case Refuse(u, _, n, _) => if u == t && n == k then y.(refused := y.refused + 1) else y
    case Serve(u, n) => if u == t && n == k then y.(served := y.served + 1) else y
    case Answer(u, n) => if u == t && n == k then y.(answered := y.answered + 1) else y
    case _ => y
  }

  function TallyOf(events: seq<Event>, t: nat, k: nat): Tally {
    if events == [] then NOTHING
    else TallyWith(TallyOf(events[..|events| - 1], t, k), events[|events| - 1], t, k)
  }

  predicate Dropped(events: seq<Event>, t: nat) {
    events != [] && (events[|events| - 1] == Drop(t) || Dropped(events[..|events| - 1], t))
  }

  predicate BatchServed(events: seq<Event>, t: nat) {
    events != [] && (events[|events| - 1] == ServeBatch(t) || BatchServed(events[..|events| - 1], t))
  }

  // --- What should become of it ---

  // The entries of a request; a single call is its only entry.
  function EntriesOf(job: Job): seq<Entry> {
    match job
    case Single(target) => [Call(target)]
    case Batch(entries) => entries
  }

  // Handed over whole: the inner service answers it.
  predicate IsDelegated(limits: Limits, job: Job) {
    job.Batch? && !HasGuardedCall(limits, job.entries)
  }

  // A guarded call has one verdict, is served exactly if admitted, and is answered either way. Any
  // other call is served and answered, a notification served and not answered, and a malformed entry
  // answered and not served.
  predicate Done(limits: Limits, entry: Entry, y: Tally) {
    match entry
    case Call(target) =>
      if GuardFor(limits, target).Some? then
        y.admitted + y.refused == 1 && y.served == y.admitted && y.answered == 1
      else y == Tally(0, 0, 1, 1)
    case Notification => y == Tally(0, 0, 1, 0)
    case Malformed => y == Tally(0, 0, 0, 1)
  }

  // The entry a living future is at.
  predicate Underway(limits: Limits, entry: Entry, pc: Pc, y: Tally) {
    match pc
    case Awaiting(_) => y == Tally(1, 0, 0, 0)
    case Dropping(_, abandoned) => y == Tally(1, 0, if abandoned then 0 else 1, 0)
    case Appending => !entry.Notification? && y.answered == 0 && Done(limits, entry, y.(answered := 1))
    case Forwarding => y == NOTHING && entry.Call?
    case Notifying => y == NOTHING && entry.Notification?
    case _ => y == NOTHING
  }

  // A future dropped at an entry has not answered it, and the inner service has not done with it.
  predicate LeftBehind(y: Tally) {
    y == NOTHING || y == Tally(1, 0, 0, 0)
  }

  predicate EntryAccounted(limits: Limits, entry: Entry, task: Task, k: nat, y: Tally, dropped: bool) {
    if k < task.next then Done(limits, entry, y)
    else if k > task.next then y == NOTHING
    else if !task.pc.Gone? then Underway(limits, entry, task.pc, y)
    else if dropped then LeftBehind(y)
    else if IsDelegated(limits, task.job) then y == NOTHING
    else Done(limits, entry, y)
  }

  // Where the control of a future can be.
  predicate Whereabouts(limits: Limits, task: Task) {
    && task.next <= |EntriesOf(task.job)|
    && (task.pc.Fresh? ==> task.next == 0)
    && (task.pc.Ready? ==> task.job.Batch? && HasGuardedCall(limits, task.job.entries))
    && (task.pc.Delegated? ==> IsDelegated(limits, task.job))
    && (IsDelegated(limits, task.job) ==>
          task.next == 0 && (task.pc.Fresh? || task.pc.Delegated? || task.pc.Gone?))
    && (!task.pc.Fresh? && !task.pc.Ready? && !task.pc.Gone? && !task.pc.Delegated? ==>
          task.next < |EntriesOf(task.job)|)
    && (task.job.Single? ==> task.next == 0 && !task.pc.Notifying?)
  }

  predicate DropAccounted(limits: Limits, task: Task, dropped: bool, batchServed: bool) {
    && (dropped ==> task.pc.Gone? || (task.pc.Dropping? && task.pc.abandoned))
    && (task.pc.Dropping? && task.pc.abandoned ==> dropped)
    && (batchServed ==> task.pc.Gone? && IsDelegated(limits, task.job) && !dropped)
    && (task.pc.Gone? && !dropped && IsDelegated(limits, task.job) ==> batchServed)
  }

  ghost predicate Accounted(limits: Limits, task: Task, t: nat, events: seq<Event>) {
    && Whereabouts(limits, task)
    && DropAccounted(limits, task, Dropped(events, t), BatchServed(events, t))
    && (forall k | 0 <= k < |EntriesOf(task.job)| ::
          EntryAccounted(limits, EntriesOf(task.job)[k], task, k, TallyOf(events, t, k), Dropped(events, t)))
  }

  // --- One step ---

  lemma TellsOfOneMore(events: seq<Event>, e: Event, t: nat, k: nat)
    ensures TallyOf(events + [e], t, k) == TallyWith(TallyOf(events, t, k), e, t, k)
    ensures Dropped(events + [e], t) <==> e == Drop(t) || Dropped(events, t)
    ensures BatchServed(events + [e], t) <==> e == ServeBatch(t) || BatchServed(events, t)
  {
    assert (events + [e])[..|events|] == events;
  }

  // The tally after a step, from the tally before it.
  function TallyAfter(y: Tally, s: System, a: Action, t: nat, k: nat): Tally {
    if EventOf(s, a) == [] then y else TallyWith(y, EventOf(s, a)[0], t, k)
  }

  lemma TallyInStep(s: System, a: Action, events: seq<Event>, t: nat, k: nat)
    ensures TallyOf(events + EventOf(s, a), t, k) == TallyAfter(TallyOf(events, t, k), s, a, t, k)
    ensures Dropped(events + EventOf(s, a), t) <==>
            Dropped(events, t) || (Enabled(s, a) && a.Abandon? && a.t == t && Suspended(s.tasks[t].pc))
    ensures BatchServed(events + EventOf(s, a), t) <==>
            BatchServed(events, t) || (Enabled(s, a) && a.Complete? && a.t == t && s.tasks[t].pc.Delegated?)
  {
    DecisionStep(s, a, t);
    if EventOf(s, a) == [] {
      assert events + EventOf(s, a) == events;
    } else {
      assert EventOf(s, a) == [EventOf(s, a)[0]];
      TellsOfOneMore(events, EventOf(s, a)[0], t, k);
    }
  }

  lemma WhereaboutsStep(s: System, a: Action)
    requires Enabled(s, a) && !a.Spawn? && Inv(s) && Whereabouts(s.limits, s.tasks[a.t])
    ensures TaskAfter(s, a).job == s.tasks[a.t].job
    ensures Whereabouts(s.limits, TaskAfter(s, a))
  {
    assert TaskInv(s.limits, s.tasks[a.t]);
  }

  lemma DropStep(s: System, a: Action, dropped: bool, batchServed: bool)
    requires Enabled(s, a) && !a.Spawn? && Inv(s) && Whereabouts(s.limits, s.tasks[a.t])
    requires DropAccounted(s.limits, s.tasks[a.t], dropped, batchServed)
    ensures
      var pc := s.tasks[a.t].pc;
      DropAccounted(s.limits, TaskAfter(s, a), dropped || (a.Abandon? && Suspended(pc)),
                    batchServed || (a.Complete? && pc.Delegated?))
  {
    assert TaskInv(s.limits, s.tasks[a.t]);
    if a.Subtract? { SubtractKeepsTask(s, a.t); }
  }

  // The atomic operations on the gate.
  lemma GateEntryStep(s: System, a: Action, k: nat, y: Tally, dropped: bool, batchServed: bool)
    requires Enabled(s, a) && !a.Spawn? && Inv(s) && k < |EntriesOf(s.tasks[a.t].job)|
    requires Whereabouts(s.limits, s.tasks[a.t])
    requires DropAccounted(s.limits, s.tasks[a.t], dropped, batchServed)
    requires EntryAccounted(s.limits, EntriesOf(s.tasks[a.t].job)[k], s.tasks[a.t], k, y, dropped)
    requires a.Load? || a.Swap? || a.SwapFail? || a.Subtract? || a.Store?
    ensures EntryAccounted(s.limits, EntriesOf(s.tasks[a.t].job)[k], TaskAfter(s, a), k,
                           TallyAfter(y, s, a, a.t, k), dropped || (a.Abandon? && Suspended(s.tasks[a.t].pc)))
  {
    assert TaskInv(s.limits, s.tasks[a.t]);
    if a.Subtract? { SubtractKeepsTask(s, a.t); }
  }

  // The future's own control flow, and the inner service's answers.
  lemma PollEntryStep(s: System, a: Action, k: nat, y: Tally, dropped: bool, batchServed: bool)
    requires Enabled(s, a) && !a.Spawn? && Inv(s) && k < |EntriesOf(s.tasks[a.t].job)|
    requires Whereabouts(s.limits, s.tasks[a.t])
    requires DropAccounted(s.limits, s.tasks[a.t], dropped, batchServed)
    requires EntryAccounted(s.limits, EntriesOf(s.tasks[a.t].job)[k], s.tasks[a.t], k, y, dropped)
    requires a.Poll? || a.Complete?
    ensures EntryAccounted(s.limits, EntriesOf(s.tasks[a.t].job)[k], TaskAfter(s, a), k,
                           TallyAfter(y, s, a, a.t, k), dropped || (a.Abandon? && Suspended(s.tasks[a.t].pc)))
  {
    assert TaskInv(s.limits, s.tasks[a.t]);
  }

  // A future dropped, and a response appended.
  lemma LastEntryStep(s: System, a: Action, k: nat, y: Tally, dropped: bool, batchServed: bool)
    requires Enabled(s, a) && !a.Spawn? && Inv(s) && k < |EntriesOf(s.tasks[a.t].job)|
    requires Whereabouts(s.limits, s.tasks[a.t])
    requires DropAccounted(s.limits, s.tasks[a.t], dropped, batchServed)
    requires EntryAccounted(s.limits, EntriesOf(s.tasks[a.t].job)[k], s.tasks[a.t], k, y, dropped)
    requires a.Abandon? || a.Append?
    ensures EntryAccounted(s.limits, EntriesOf(s.tasks[a.t].job)[k], TaskAfter(s, a), k,
                           TallyAfter(y, s, a, a.t, k), dropped || (a.Abandon? && Suspended(s.tasks[a.t].pc)))
  {
    assert TaskInv(s.limits, s.tasks[a.t]);
  }

  lemma EntryStep(s: System, a: Action, k: nat, y: Tally, dropped: bool, batchServed: bool)
    requires Enabled(s, a) && !a.Spawn? && Inv(s) && k < |EntriesOf(s.tasks[a.t].job)|
    requires Whereabouts(s.limits, s.tasks[a.t])
    requires DropAccounted(s.limits, s.tasks[a.t], dropped, batchServed)
    requires EntryAccounted(s.limits, EntriesOf(s.tasks[a.t].job)[k], s.tasks[a.t], k, y, dropped)
    ensures EntryAccounted(s.limits, EntriesOf(s.tasks[a.t].job)[k], TaskAfter(s, a), k,
                           TallyAfter(y, s, a, a.t, k), dropped || (a.Abandon? && Suspended(s.tasks[a.t].pc)))
  {
    if a.Load? || a.Swap? || a.SwapFail? || a.Subtract? || a.Store? {
      GateEntryStep(s, a, k, y, dropped, batchServed);
    } else if a.Poll? || a.Complete? {
      PollEntryStep(s, a, k, y, dropped, batchServed);
    } else {
      LastEntryStep(s, a, k, y, dropped, batchServed);
    }
  }

  // --- Every run ---

  ghost predicate Unseen(events: seq<Event>, t: nat) {
    && !Dropped(events, t) && !BatchServed(events, t)
    && forall k :: TallyOf(events, t, k) == NOTHING
  }

  ghost predicate FutureAccounted(s: System, t: nat, events: seq<Event>) {
    if t < |s.tasks| then Accounted(s.limits, s.tasks[t], t, events) else Unseen(events, t)
  }

  lemma OwnStepAccounts(s: System, a: Action, events: seq<Event>)
    requires Enabled(s, a) && !a.Spawn? && Inv(s) && Accounted(s.limits, s.tasks[a.t], a.t, events)
    ensures Accounted(s.limits, TaskAfter(s, a), a.t, events + EventOf(s, a))
  {
    var dropped, batchServed := Dropped(events, a.t), BatchServed(events, a.t);
    WhereaboutsStep(s, a);
    DropStep(s, a, dropped, batchServed);
    TallyInStep(s, a, events, a.t, 0);
    forall k | 0 <= k < |EntriesOf(s.tasks[a.t].job)|
      ensures EntryAccounted(s.limits, EntriesOf(s.tasks[a.t].job)[k], TaskAfter(s, a), k,
                             TallyOf(events + EventOf(s, a), a.t, k), Dropped(events + EventOf(s, a), a.t))
    {
      TallyInStep(s, a, events, a.t, k);
      EntryStep(s, a, k, TallyOf(events, a.t, k), dropped, batchServed);
    }
  }

  // A step of another future tells nothing of this one.
  lemma OtherStepTells(s: System, a: Action, events: seq<Event>, t: nat, k: nat)
    requires !Enabled(s, a) || a.Spawn? || a.t != t
    ensures TallyOf(events + EventOf(s, a), t, k) == TallyOf(events, t, k)
    ensures Dropped(events + EventOf(s, a), t) <==> Dropped(events, t)
    ensures BatchServed(events + EventOf(s, a), t) <==> BatchServed(events, t)
  {
    TallyInStep(s, a, events, t, k);
  }

  lemma StepAccounts(s: System, a: Action, t: nat, events: seq<Event>)
    requires Inv(s) && FutureAccounted(s, t, events)
    ensures FutureAccounted(Step(s, a), t, events + EventOf(s, a))
  {
    if Enabled(s, a) && !a.Spawn? && a.t == t {
      OwnStepAccounts(s, a, events);
    } else {
      forall k: nat
        ensures TallyOf(events + EventOf(s, a), t, k) == TallyOf(events, t, k)
        ensures Dropped(events + EventOf(s, a), t) <==> Dropped(events, t)
        ensures BatchServed(events + EventOf(s, a), t) <==> BatchServed(events, t)
      {
        OtherStepTells(s, a, events, t, k);
      }
      OtherStepTells(s, a, events, t, 0);
    }
  }

  // In every run every future has done for each of its entries exactly what it should have: nothing
  // for those ahead, everything once for those behind.
  lemma {:induction false} RunAccounts(limits: Limits, actions: seq<Action>, t: nat)
    requires AreUsize(limits)
    ensures FutureAccounted(Run(Init(limits), actions), t, Trace(Init(limits), actions))
  {
    if actions != [] {
      var last := |actions| - 1;
      RunAccounts(limits, actions[..last], t);
      RunKeepsInv(limits, actions[..last]);
      StepAccounts(Run(Init(limits), actions[..last]), actions[last], t, Trace(Init(limits), actions[..last]));
    }
  }

  // A future that is gone without having been dropped is through with its request: the inner service
  // has answered its batch, or each of the first `handled` entries has had all that it should and no
  // other entry anything. Only a batch that stops at an answer that does not fit leaves entries.
  lemma GoneMeansAnswered(limits: Limits, actions: seq<Action>, t: nat) returns (handled: nat)
    requires AreUsize(limits) && t < |Run(Init(limits), actions).tasks|
    requires Run(Init(limits), actions).tasks[t].pc.Gone? && !Dropped(Trace(Init(limits), actions), t)
    ensures
      var task, events := Run(Init(limits), actions).tasks[t], Trace(Init(limits), actions);
      var entries := EntriesOf(task.job);
      && handled <= |entries|
      && (forall k | 0 <= k < handled :: Done(limits, entries[k], TallyOf(events, t, k)))
      && (forall k | handled <= k < |entries| :: TallyOf(events, t, k) == NOTHING)
      && (IsDelegated(limits, task.job) ==> handled == 0 && BatchServed(events, t))
      && (task.job.Single? ==> handled == 1)
      && (!IsDelegated(limits, task.job) ==> handled == task.next + (if task.next < |entries| then 1 else 0))
  {
    RunAccounts(limits, actions, t);
    RunKeepsInv(limits, actions);
    var task := Run(Init(limits), actions).tasks[t];
    handled := if IsDelegated(limits, task.job) then 0
               else task.next + (if task.next < |EntriesOf(task.job)| then 1 else 0);
  }

  lemma OnlyReleases(s: System, a: Action)
    requires Enabled(s, a) && !a.Spawn? && (s.tasks[a.t].pc.Gone? || s.tasks[a.t].pc.Dropping?)
    ensures EventOf(s, a) == [] || (a.Subtract? && EventOf(s, a)[0].Release?)
  {
  }

  // A future that has been dropped answers no more: it has at most a permit left to give back.
  lemma DroppedNeverAnswers(limits: Limits, actions: seq<Action>, t: nat, a: Action)
    requires AreUsize(limits) && t < |Run(Init(limits), actions).tasks| && Dropped(Trace(Init(limits), actions), t)
    requires Enabled(Run(Init(limits), actions), a) && !a.Spawn? && a.t == t
    ensures
      var s := Run(Init(limits), actions);
      && (s.tasks[t].pc.Gone? || (s.tasks[t].pc.Dropping? && s.tasks[t].pc.abandoned))
      && (EventOf(s, a) == [] || EventOf(s, a)[0].Release?)
  {
    RunAccounts(limits, actions, t);
    OnlyReleases(Run(Init(limits), actions), a);
  }

  // --- How a future ends ---

  // The step with which a future ends of its own accord.
  predicate Finishes(s: System, a: Action, t: nat) {
    && t < |s.tasks| && Enabled(s, a) && !a.Spawn? && a.t == t && !s.tasks[t].pc.Gone?
    && ((a.Append? && s.tasks[t].pc.Appending? && (s.tasks[t].job.Batch? ==> !a.fits))
        || (a.Poll? && s.tasks[t].pc.Ready? && s.tasks[t].job.Batch? && s.tasks[t].next == |s.tasks[t].job.entries|)
        || (a.Complete? && s.tasks[t].pc.Delegated?))
  }

  lemma EndStep(s: System, a: Action, t: nat, events: seq<Event>)
    requires Inv(s) && t < |s.tasks| && Accounted(s.limits, s.tasks[t], t, events)
    requires !s.tasks[t].pc.Gone? && Step(s, a).tasks[t].pc.Gone?
    requires !Dropped(events + EventOf(s, a), t)
    ensures Finishes(s, a, t)
  {
    TallyInStep(s, a, events, t, 0);
    assert TaskInv(s.limits, s.tasks[t]);
    if a.Subtract? { SubtractKeepsTask(s, a.t); }
  }

  // A future that is gone and was never dropped ended by an answer, by the last poll of a batch whose
  // entries are all handled, or with the inner service's answer to a whole batch.
  lemma {:induction false} EndsOnlyByFinishing(limits: Limits, actions: seq<Action>, t: nat) returns (n: nat)
    requires AreUsize(limits) && t < |Run(Init(limits), actions).tasks|
    requires Run(Init(limits), actions).tasks[t].pc.Gone? && !Dropped(Trace(Init(limits), actions), t)
    ensures n < |actions| && Finishes(Run(Init(limits), actions[..n]), actions[n], t)
  {
    var last := |actions| - 1;
    if t < |Run(Init(limits), actions[..last]).tasks| && Run(Init(limits), actions[..last]).tasks[t].pc.Gone? {
      NotDroppedBefore(Init(limits), actions, t);
      n := EndsOnlyByFinishing(limits, actions[..last], t);
      assert actions[..last][..n] == actions[..n];
    } else {
      n := last;
      EndsInLastStep(limits, actions, t);
    }
  }

  lemma NotDroppedBefore(s: System, actions: seq<Action>, t: nat)
    requires actions != [] && !Dropped(Trace(s, actions), t)
    ensures !Dropped(Trace(s, actions[..|actions| - 1]), t)
  {
    var last := |actions| - 1;
    TallyInStep(Run(s, actions[..last]), actions[last], Trace(s, actions[..last]), t, 0);
  }

  lemma EndsInLastStep(limits: Limits, actions: seq<Action>, t: nat)
    requires AreUsize(limits) && t < |Run(Init(limits), actions).tasks| && actions != []
    requires Run(Init(limits), actions).tasks[t].pc.Gone? && !Dropped(Trace(Init(limits), actions), t)
    requires
      var s := Run(Init(limits), actions[..|actions| - 1]);
      t >= |s.tasks| || !s.tasks[t].pc.Gone?
    ensures Finishes(Run(Init(limits), actions[..|actions| - 1]), actions[|actions| - 1], t)
  {
    var last := |actions| - 1;
    RunKeepsInv(limits, actions[..last]);
    RunAccounts(limits, actions[..last], t);
    EndStep(Run(Init(limits), actions[..last]), actions[last], t, Trace(Init(limits), actions[..last]));
  }
}
