// A batch future of the gate's step system does what the batch loop does: the loop's arbitrary
// verdicts of the gate are the admissions and refusals of the run.
module GateBatch {
  import opened Wrappers
  import opened Gate
  import opened GateSafety
  import opened GateLinearizable
  import opened GateAnswers
  import B = Batch

  // --- The two views of a batch ---

  // What the step system keeps of an entry.
  function EntryOf(entry: B.BatchEntry): Entry {
    match entry
    case Call(req) => Call(FromRpcMethod(req.name))
    case Notification(_) => Notification
    case Malformed(_, _) => Malformed
  }

  function JobOf(entries: seq<B.BatchEntry>): Job {
    Batch(seq(|entries|, k requires 0 <= k < |entries| => EntryOf(entries[k])))
  }

  lemma GuardsAgree(limits: Limits, entries: seq<B.BatchEntry>)
    ensures forall k | 0 <= k < |entries| ::
              IsGuarded(limits, EntryOf(entries[k])) <==> B.IsGuardedCall(limits, entries[k])
    ensures HasGuardedCall(limits, JobOf(entries).entries) <==> B.HasGuarded(limits, entries)
  {
    forall k | 0 <= k < |entries|
      ensures IsGuarded(limits, EntryOf(entries[k])) <==> B.IsGuardedCall(limits, entries[k])
      ensures JobOf(entries).entries[k] == EntryOf(entries[k])
    {
    }
  }

  // --- The verdicts of a run ---

  predicate Admitted(events: seq<Event>, t: nat, k: nat) {
    events != [] &&
    (var e := events[|events| - 1];
     (e.Admit? && e.t == t && e.entry == k) || Admitted(events[..|events| - 1], t, k))
  }

  predicate Refused(events: seq<Event>, t: nat, k: nat) {
    events != [] &&
    (var e := events[|events| - 1];
     (e.Refuse? && e.t == t && e.entry == k) || Refused(events[..|events| - 1], t, k))
  }

  lemma VerdictsOfOneMore(events: seq<Event>, e: Event, t: nat, k: nat)
    ensures Admitted(events + [e], t, k) <==> (e.Admit? && e.t == t && e.entry == k) || Admitted(events, t, k)
    ensures Refused(events + [e], t, k) <==> (e.Refuse? && e.t == t && e.entry == k) || Refused(events, t, k)
  {
    assert (events + [e])[..|events|] == events;
  }

  // The surroundings of the batch loop in which the gate answers as it did in the run.
  function Witnessed(env: B.Surroundings, events: seq<Event>, t: nat): B.Surroundings {
    env.(admits := (k: nat) => Admitted(events, t, k))
  }

  function AnswersIn(
    limits: Limits, env: B.Surroundings, entries: seq<B.BatchEntry>, events: seq<Event>, t: nat)
    : (answers: seq<Option<B.Reply>>)
    ensures |answers| == |entries|
  {
    B.Answers(limits, Witnessed(env, events, t), entries)
  }

  // What the run has decided about entry k of the future's batch: nothing beyond the entry it is at,
  // one verdict on each guarded call it is done with, none on any other entry.
  predicate DecidedRight(limits: Limits, entry: B.BatchEntry, task: Task, k: nat, admitted: bool, refused: bool) {
    if !B.IsGuardedCall(limits, entry) || k > task.next then !admitted && !refused
    else if k < task.next || task.pc.Appending? then admitted != refused
    else if task.pc.Awaiting? || task.pc.Dropping? then admitted && !refused
    else !admitted && !refused
  }

  // Where a future in the middle of its batch can be.
  predicate Shape(entries: seq<B.BatchEntry>, task: Task) {
    && task.job == JobOf(entries)
    && task.next <= |entries|
    && !task.pc.Delegated?
    && (task.pc.Fresh? ==> task.next == 0)
    && (!task.pc.Fresh? && !task.pc.Ready? ==> task.next < |entries|)
    && (task.pc.Notifying? ==> entries[task.next].Notification?)
  }

  // --- One step of the future itself ---

  lemma ShapeStep(s: System, a: Action, entries: seq<B.BatchEntry>)
    requires Enabled(s, a) && !a.Spawn? && Inv(s)
    requires B.HasGuarded(s.limits, entries) && Shape(entries, s.tasks[a.t]) && !s.tasks[a.t].pc.Gone?
    ensures TaskAfter(s, a).pc.Gone? || Shape(entries, TaskAfter(s, a))
  {
    GuardsAgree(s.limits, entries);
    var task := s.tasks[a.t];
    assert TaskInv(s.limits, task);
    if a.Poll? && task.pc.Ready? && task.next < |entries| {
      assert task.job.entries[task.next] == EntryOf(entries[task.next]);
    }
  }

  lemma VerdictsInStep(s: System, a: Action, events: seq<Event>, t: nat, k: nat)
    ensures
      var own := Enabled(s, a) && !a.Spawn? && a.t == t && s.tasks[t].next == k;
      && (Admitted(events + EventOf(s, a), t, k) <==> Admitted(events, t, k) || (own && a.Swap?))
      && (Refused(events + EventOf(s, a), t, k) <==> Refused(events, t, k) || (own && Refuses(s, a)))
  {
    DecisionStep(s, a, t);
    if EventOf(s, a) == [] {
      assert events + EventOf(s, a) == events;
    } else {
      assert EventOf(s, a) == [EventOf(s, a)[0]];
      VerdictsOfOneMore(events, EventOf(s, a)[0], t, k);
    }
  }

  // Whether the entry the future is at is a guarded call, as its control flow knows it.
  lemma GuardOfCurrent(limits: Limits, entries: seq<B.BatchEntry>, task: Task)
    requires Shape(entries, task) && task.next < |entries|
    ensures CurrentGuard(limits, task).Some? <==> B.IsGuardedCall(limits, entries[task.next])
  {
    GuardsAgree(limits, entries);
    assert task.job.entries[task.next] == EntryOf(entries[task.next]);
  }

  lemma DecidedStep(
    s: System, a: Action, entries: seq<B.BatchEntry>, k: nat, admitted: bool, refused: bool)
    requires Enabled(s, a) && !a.Spawn? && Inv(s) && k < |entries|
    requires Shape(entries, s.tasks[a.t]) && !s.tasks[a.t].pc.Gone? && !TaskAfter(s, a).pc.Gone?
    requires DecidedRight(s.limits, entries[k], s.tasks[a.t], k, admitted, refused)
    ensures
      var own := s.tasks[a.t].next == k;
      DecidedRight(s.limits, entries[k], TaskAfter(s, a), k,
                   admitted || (own && a.Swap?), refused || (own && Refuses(s, a)))
  {
    var task := s.tasks[a.t];
    assert TaskInv(s.limits, task);
    if task.next < |entries| { GuardOfCurrent(s.limits, entries, task); }
    if a.Subtract? { SubtractKeepsTask(s, a.t); }
  }

  // --- The buffer ---

  // The size of the first n replies depends on the verdicts on the first n entries alone.
  lemma {:induction false} SizeDependsOnPrefix(a: seq<Option<B.Reply>>, b: seq<Option<B.Reply>>, n: nat)
    requires n <= |a| == |b|
    requires forall k | 0 <= k < n :: a[k] == b[k]
    ensures B.SizeAfter(a, n) == B.SizeAfter(b, n)
  {
    if n > 0 { SizeDependsOnPrefix(a, b, n - 1); }
  }

  lemma FitStays(
    limits: Limits, env: B.Surroundings, entries: seq<B.BatchEntry>, t: nat,
    before: seq<Event>, after: seq<Event>, n: nat, byteLimit: nat)
    requires n <= |entries|
    requires forall k | 0 <= k < n :: Admitted(before, t, k) == Admitted(after, t, k)
    ensures B.FitsAfter(AnswersIn(limits, env, entries, before, t), n, byteLimit) ==
            B.FitsAfter(AnswersIn(limits, env, entries, after, t), n, byteLimit)
  {
    var a, b := AnswersIn(limits, env, entries, before, t), AnswersIn(limits, env, entries, after, t);
    forall k | 0 <= k < n ensures a[k] == b[k] {
      SameVerdictSameReply(limits, env, t, before, after, k, entries[k]);
    }
    SizeDependsOnPrefix(a, b, n);
  }

  lemma SameVerdictSameReply(
    limits: Limits, env: B.Surroundings, t: nat, before: seq<Event>, after: seq<Event>, k: nat, entry: B.BatchEntry)
    requires Admitted(before, t, k) == Admitted(after, t, k)
    ensures B.ReplyTo(limits, Witnessed(env, before, t), k, entry) ==
            B.ReplyTo(limits, Witnessed(env, after, t), k, entry)
  {
    assert Witnessed(env, before, t).admits(k) == Witnessed(env, after, t).admits(k);
  }

  // An append says whether the reply it is given fits the buffer.
  predicate HonestAppend(
    limits: Limits, env: B.Surroundings, entries: seq<B.BatchEntry>, byteLimit: nat, t: nat,
    s: System, events: seq<Event>, a: Action)
  {
    a.Append? && a.t == t && t < |s.tasks| && s.tasks[t].pc.Appending? && s.tasks[t].job == JobOf(entries) &&
    s.tasks[t].next < |entries| ==>
      (a.fits <==> B.FitsAfter(AnswersIn(limits, env, entries, events, t), s.tasks[t].next + 1, byteLimit))
  }

  ghost predicate HonestRun(
    limits: Limits, env: B.Surroundings, entries: seq<B.BatchEntry>, byteLimit: nat, t: nat, actions: seq<Action>)
  {
    actions == [] ||
    (var before := actions[..|actions| - 1];
     && HonestRun(limits, env, entries, byteLimit, t, before)
     && HonestAppend(limits, env, entries, byteLimit, t, Run(Init(limits), before), Trace(Init(limits), before),
                     actions[|actions| - 1]))
  }

  // --- Every run ---

  // The future, as long as it is alive, is in the middle of its batch: it has decided what it
  // should have, and everything so far fits the buffer.
  ghost predicate Follows(
    limits: Limits, env: B.Surroundings, entries: seq<B.BatchEntry>, byteLimit: nat, t: nat,
    task: Task, events: seq<Event>)
  {
    && Shape(entries, task)
    && (forall k | 0 <= k < |entries| ::
          DecidedRight(limits, entries[k], task, k, Admitted(events, t, k), Refused(events, t, k)))
    && B.FitsAfter(AnswersIn(limits, env, entries, events, t), task.next, byteLimit)
  }

  // The entry a future steps over without a reply is a notification.
  lemma NoReplyStep(
    limits: Limits, env: B.Surroundings, entries: seq<B.BatchEntry>, t: nat, events: seq<Event>, n: nat)
    requires n < |entries| && entries[n].Notification?
    ensures AnswersIn(limits, env, entries, events, t)[n] == None
  {
  }

  // How far the future gets in one step.
  lemma NextInStep(s: System, a: Action)
    requires Enabled(s, a) && !a.Spawn? && !s.tasks[a.t].pc.Gone? && s.tasks[a.t].job.Batch?
    ensures
      var task, task' := s.tasks[a.t], TaskAfter(s, a);
      task'.next == task.next + (if (a.Complete? && task.pc.Notifying?) || (a.Append? && task.pc.Appending? && a.fits)
                                 then 1 else 0)
  {
  }

  lemma OwnStepDecides(s: System, a: Action, entries: seq<B.BatchEntry>, events: seq<Event>, k: nat)
    requires Enabled(s, a) && !a.Spawn? && Inv(s) && k < |entries|
    requires Shape(entries, s.tasks[a.t]) && !s.tasks[a.t].pc.Gone? && !TaskAfter(s, a).pc.Gone?
    requires DecidedRight(s.limits, entries[k], s.tasks[a.t], k, Admitted(events, a.t, k), Refused(events, a.t, k))
    ensures
      var events' := events + EventOf(s, a);
      && DecidedRight(s.limits, entries[k], TaskAfter(s, a), k, Admitted(events', a.t, k), Refused(events', a.t, k))
      && (k < TaskAfter(s, a).next ==> Admitted(events, a.t, k) == Admitted(events', a.t, k))
  {
    VerdictsInStep(s, a, events, a.t, k);
    DecidedStep(s, a, entries, k, Admitted(events, a.t, k), Refused(events, a.t, k));
    NextInStep(s, a);
  }

  lemma OwnStepFits(
    env: B.Surroundings, entries: seq<B.BatchEntry>, byteLimit: nat, s: System, a: Action, events: seq<Event>)
    requires Enabled(s, a) && !a.Spawn? && !s.tasks[a.t].pc.Gone? && Shape(entries, s.tasks[a.t])
    requires TaskAfter(s, a).next <= |entries|
    requires HonestAppend(s.limits, env, entries, byteLimit, a.t, s, events, a)
    requires B.FitsAfter(AnswersIn(s.limits, env, entries, events, a.t), s.tasks[a.t].next, byteLimit)
    ensures B.FitsAfter(AnswersIn(s.limits, env, entries, events, a.t), TaskAfter(s, a).next, byteLimit)
  {
    NextInStep(s, a);
    if s.tasks[a.t].pc.Notifying? { NoReplyStep(s.limits, env, entries, a.t, events, s.tasks[a.t].next); }
  }

  lemma OwnStepFollows(
    env: B.Surroundings, entries: seq<B.BatchEntry>, byteLimit: nat, s: System, a: Action, events: seq<Event>)
    requires Enabled(s, a) && !a.Spawn? && Inv(s) && B.HasGuarded(s.limits, entries)
    requires !s.tasks[a.t].pc.Gone? && !TaskAfter(s, a).pc.Gone?
    requires Follows(s.limits, env, entries, byteLimit, a.t, s.tasks[a.t], events)
    requires HonestAppend(s.limits, env, entries, byteLimit, a.t, s, events, a)
    ensures Follows(s.limits, env, entries, byteLimit, a.t, TaskAfter(s, a), events + EventOf(s, a))
  {
    var task', events' := TaskAfter(s, a), events + EventOf(s, a);
    ShapeStep(s, a, entries);
    forall k | 0 <= k < |entries|
      ensures DecidedRight(s.limits, entries[k], task', k, Admitted(events', a.t, k), Refused(events', a.t, k))
      ensures k < task'.next ==> Admitted(events, a.t, k) == Admitted(events', a.t, k)
    {
      OwnStepDecides(s, a, entries, events, k);
    }
    OwnStepFits(env, entries, byteLimit, s, a, events);
    FitStays(s.limits, env, entries, a.t, events, events', task'.next, byteLimit);
  }

  // A step of another future shows nothing of this one.
  lemma OtherStepFollows(
    env: B.Surroundings, entries: seq<B.BatchEntry>, byteLimit: nat, t: nat, task: Task,
    s: System, a: Action, events: seq<Event>)
    requires Follows(s.limits, env, entries, byteLimit, t, task, events)
    requires !Enabled(s, a) || a.Spawn? || a.t != t
    ensures Follows(s.limits, env, entries, byteLimit, t, task, events + EventOf(s, a))
  {
    var events' := events + EventOf(s, a);
    forall k: nat
      ensures Admitted(events', t, k) == Admitted(events, t, k) && Refused(events', t, k) == Refused(events, t, k)
    {
      VerdictsInStep(s, a, events, t, k);
    }
    FitStays(s.limits, env, entries, t, events, events', task.next, byteLimit);
  }

  // --- The end of the batch ---

  // A future that is gone has the batch loop's outcome: all entries answered if it got to the end,
  // and otherwise stopped by the answer to the entry it was at.
  predicate EndsAsTheLoop(
    limits: Limits, env: B.Surroundings, entries: seq<B.BatchEntry>, byteLimit: nat, t: nat,
    task: Task, events: seq<Event>)
  {
    var answers := AnswersIn(limits, env, entries, events, t);
    if task.next >= |entries| then
      task.next == |entries| &&
      B.OutcomeIs(limits, byteLimit, Witnessed(env, events, t), entries,
                  B.Answered(B.Replies(answers, |entries|)), |entries|)
    else
      B.OutcomeIs(limits, byteLimit, Witnessed(env, events, t), entries, B.TooLarge(byteLimit), task.next + 1)
  }

  lemma AnsweredInFull(limits: Limits, byteLimit: nat, env: B.Surroundings, entries: seq<B.BatchEntry>)
    requires B.HasGuarded(limits, entries)
    requires B.FitsAfter(B.Answers(limits, env, entries), |entries|, byteLimit)
    ensures B.OutcomeIs(limits, byteLimit, env, entries,
                        B.Answered(B.Replies(B.Answers(limits, env, entries), |entries|)), |entries|)
  {
    B.SizesAgree(B.Answers(limits, env, entries), |entries|);
  }

  lemma StoppedByAppend(limits: Limits, byteLimit: nat, env: B.Surroundings, entries: seq<B.BatchEntry>, k: nat)
    requires B.HasGuarded(limits, entries) && k < |entries|
    requires B.FitsAfter(B.Answers(limits, env, entries), k, byteLimit)
    requires !B.FitsAfter(B.Answers(limits, env, entries), k + 1, byteLimit)
    ensures B.OutcomeIs(limits, byteLimit, env, entries, B.TooLarge(byteLimit), k + 1)
  {
    B.SizesAgree(B.Answers(limits, env, entries), k);
    B.SizesAgree(B.Answers(limits, env, entries), k + 1);
    B.OverflowEnds(B.Answers(limits, env, entries), k, byteLimit);
  }

  lemma EndIsOutcome(
    env: B.Surroundings, entries: seq<B.BatchEntry>, byteLimit: nat, s: System, a: Action, events: seq<Event>)
    requires Enabled(s, a) && (a.Poll? || a.Append?) && B.HasGuarded(s.limits, entries)
    requires !s.tasks[a.t].pc.Gone? && TaskAfter(s, a).pc.Gone?
    requires Follows(s.limits, env, entries, byteLimit, a.t, s.tasks[a.t], events)
    requires HonestAppend(s.limits, env, entries, byteLimit, a.t, s, events, a)
    ensures
      EndsAsTheLoop(s.limits, env, entries, byteLimit, a.t, TaskAfter(s, a), events)
  {
    ShapeOfEnd(s, a, entries);
    var witnessed := Witnessed(env, events, a.t);
    if a.Append? {
      StoppedByAppend(s.limits, byteLimit, witnessed, entries, s.tasks[a.t].next);
    } else {
      AnsweredInFull(s.limits, byteLimit, witnessed, entries);
    }
  }

  lemma ShapeOfEnd(s: System, a: Action, entries: seq<B.BatchEntry>)
    requires Enabled(s, a) && (a.Poll? || a.Append?) && B.HasGuarded(s.limits, entries)
    requires Shape(entries, s.tasks[a.t]) && !s.tasks[a.t].pc.Gone? && TaskAfter(s, a).pc.Gone?
    ensures TaskAfter(s, a).next == s.tasks[a.t].next
    ensures a.Poll? ==> s.tasks[a.t].pc.Ready? && s.tasks[a.t].next == |entries|
    ensures a.Append? ==> s.tasks[a.t].pc.Appending? && !a.fits && s.tasks[a.t].next < |entries|
  {
    GuardsAgree(s.limits, entries);
  }

  lemma EndStays(
    limits: Limits, env: B.Surroundings, entries: seq<B.BatchEntry>, byteLimit: nat, t: nat,
    task: Task, before: seq<Event>, after: seq<Event>)
    requires forall k | 0 <= k < |entries| :: Admitted(before, t, k) == Admitted(after, t, k)
    requires EndsAsTheLoop(limits, env, entries, byteLimit, t, task, before)
    ensures EndsAsTheLoop(limits, env, entries, byteLimit, t, task, after)
  {
    var a, b := AnswersIn(limits, env, entries, before, t), AnswersIn(limits, env, entries, after, t);
    forall k | 0 <= k < |entries| ensures a[k] == b[k] {
      SameVerdictSameReply(limits, env, t, before, after, k, entries[k]);
    }
    assert a == b;
  }

  // --- Every future ---

  // A future keeps its job, and one that is gone stays gone and shows nothing more.
  lemma GoneIsSilent(s: System, a: Action)
    requires Enabled(s, a) && !a.Spawn?
    ensures TaskAfter(s, a).job == s.tasks[a.t].job
    ensures s.tasks[a.t].pc.Gone? ==> TaskAfter(s, a) == s.tasks[a.t] && EventOf(s, a) == []
  {
  }

  ghost predicate Silent(events: seq<Event>, t: nat) {
    forall k :: !Admitted(events, t, k) && !Refused(events, t, k)
  }

  ghost predicate OnTrack(
    limits: Limits, env: B.Surroundings, entries: seq<B.BatchEntry>, byteLimit: nat, t: nat,
    s: System, events: seq<Event>)
  {
    if t >= |s.tasks| then Silent(events, t)
    else s.tasks[t].job == JobOf(entries) ==>
           if !s.tasks[t].pc.Gone? then Follows(limits, env, entries, byteLimit, t, s.tasks[t], events)
           else Dropped(events, t) || EndsAsTheLoop(limits, env, entries, byteLimit, t, s.tasks[t], events)
  }

  lemma SpawnFollows(
    limits: Limits, env: B.Surroundings, entries: seq<B.BatchEntry>, byteLimit: nat, t: nat, events: seq<Event>)
    requires Silent(events, t)
    ensures Follows(limits, env, entries, byteLimit, t, NewTask(JobOf(entries)), events)
  {
  }

  lemma StepBeforeSpawn(
    env: B.Surroundings, entries: seq<B.BatchEntry>, byteLimit: nat, t: nat,
    s: System, a: Action, events: seq<Event>)
    requires t >= |s.tasks| && Silent(events, t)
    ensures OnTrack(s.limits, env, entries, byteLimit, t, Step(s, a), events + EventOf(s, a))
  {
    forall k ensures !Admitted(events + EventOf(s, a), t, k) && !Refused(events + EventOf(s, a), t, k) {
      VerdictsInStep(s, a, events, t, k);
    }
    if a.Spawn? && t == |s.tasks| && a.job == JobOf(entries) {
      SpawnFollows(s.limits, env, entries, byteLimit, t, events + EventOf(s, a));
    }
  }

  lemma OwnStepStaysOnTrack(
    env: B.Surroundings, entries: seq<B.BatchEntry>, byteLimit: nat, s: System, a: Action, events: seq<Event>)
    requires Inv(s) && B.HasGuarded(s.limits, entries) && Enabled(s, a) && !a.Spawn?
    requires Accounted(s.limits, s.tasks[a.t], a.t, events) && s.tasks[a.t].job == JobOf(entries)
    requires !s.tasks[a.t].pc.Gone? && Follows(s.limits, env, entries, byteLimit, a.t, s.tasks[a.t], events)
    requires HonestAppend(s.limits, env, entries, byteLimit, a.t, s, events, a)
    ensures
      var task', events' := TaskAfter(s, a), events + EventOf(s, a);
      if !task'.pc.Gone? then Follows(s.limits, env, entries, byteLimit, a.t, task', events')
      else Dropped(events', a.t) || EndsAsTheLoop(s.limits, env, entries, byteLimit, a.t, task', events')
  {
    var task', events' := TaskAfter(s, a), events + EventOf(s, a);
    if !task'.pc.Gone? {
      OwnStepFollows(env, entries, byteLimit, s, a, events);
    } else if !Dropped(events', a.t) {
      EndStep(s, a, a.t, events);
      EndIsOutcome(env, entries, byteLimit, s, a, events);
      forall k: nat ensures Admitted(events', a.t, k) == Admitted(events, a.t, k) {
        VerdictsInStep(s, a, events, a.t, k);
      }
      EndStays(s.limits, env, entries, byteLimit, a.t, task', events, events');
    }
  }

  lemma OtherStepStaysOnTrack(
    env: B.Surroundings, entries: seq<B.BatchEntry>, byteLimit: nat, t: nat,
    s: System, a: Action, events: seq<Event>)
    requires t < |s.tasks| && OnTrack(s.limits, env, entries, byteLimit, t, s, events)
    requires !Enabled(s, a) || a.Spawn? || a.t != t
    ensures OnTrack(s.limits, env, entries, byteLimit, t, Step(s, a), events + EventOf(s, a))
  {
    if s.tasks[t].job == JobOf(entries) {
      if !s.tasks[t].pc.Gone? {
        OtherStepFollows(env, entries, byteLimit, t, s.tasks[t], s, a, events);
      } else {
        OtherStepTells(s, a, events, t, 0);
        forall k: nat ensures Admitted(events + EventOf(s, a), t, k) == Admitted(events, t, k) {
          VerdictsInStep(s, a, events, t, k);
        }
        if !Dropped(events, t) {
          EndStays(s.limits, env, entries, byteLimit, t, s.tasks[t], events, events + EventOf(s, a));
        }
      }
    }
  }

  lemma StepStaysOnTrack(
    env: B.Surroundings, entries: seq<B.BatchEntry>, byteLimit: nat, t: nat,
    s: System, a: Action, events: seq<Event>)
    requires Inv(s) && B.HasGuarded(s.limits, entries) && FutureAccounted(s, t, events)
    requires OnTrack(s.limits, env, entries, byteLimit, t, s, events)
    requires HonestAppend(s.limits, env, entries, byteLimit, t, s, events, a)
    ensures OnTrack(s.limits, env, entries, byteLimit, t, Step(s, a), events + EventOf(s, a))
  {
    if t >= |s.tasks| {
      StepBeforeSpawn(env, entries, byteLimit, t, s, a, events);
    } else if Enabled(s, a) && !a.Spawn? && a.t == t {
      GoneIsSilent(s, a);
      if s.tasks[t].job == JobOf(entries) && !s.tasks[t].pc.Gone? {
        OwnStepStaysOnTrack(env, entries, byteLimit, s, a, events);
      } else {
        assert s.tasks[t].pc.Gone? ==> events + EventOf(s, a) == events;
      }
    } else {
      OtherStepStaysOnTrack(env, entries, byteLimit, t, s, a, events);
    }
  }

  // In every run a future that is alive has decided each guarded call it is done with exactly once
  // and nothing else, and is where the batch loop would be under those verdicts.
  lemma {:induction false} RunStaysOnTrack(
    limits: Limits, env: B.Surroundings, entries: seq<B.BatchEntry>, byteLimit: nat, t: nat, actions: seq<Action>)
    requires AreUsize(limits) && B.HasGuarded(limits, entries)
    requires HonestRun(limits, env, entries, byteLimit, t, actions)
    ensures OnTrack(limits, env, entries, byteLimit, t, Run(Init(limits), actions), Trace(Init(limits), actions))
  {
    if actions != [] {
      var last := |actions| - 1;
      var s, events := Run(Init(limits), actions[..last]), Trace(Init(limits), actions[..last]);
      RunStaysOnTrack(limits, env, entries, byteLimit, t, actions[..last]);
      RunKeepsInv(limits, actions[..last]);
      RunAccounts(limits, actions[..last], t);
      StepStaysOnTrack(env, entries, byteLimit, t, s, actions[last], events);
    }
  }

  // Every batch future with a guarded call that is gone and was not dropped has ended as the batch
  // loop does, with the admissions of the run as the verdicts of the gate: by a last poll, all
  // entries answered, or right after the first entry whose answer does not fit.
  lemma FutureEndsAsTheLoop(
    limits: Limits, env: B.Surroundings, entries: seq<B.BatchEntry>, byteLimit: nat, t: nat, actions: seq<Action>)
    requires AreUsize(limits) && B.HasGuarded(limits, entries)
    requires HonestRun(limits, env, entries, byteLimit, t, actions)
    requires
      var s := Run(Init(limits), actions);
      && t < |s.tasks| && s.tasks[t].job == JobOf(entries) && s.tasks[t].pc.Gone?
      && !Dropped(Trace(Init(limits), actions), t)
    ensures
      var task, events := Run(Init(limits), actions).tasks[t], Trace(Init(limits), actions);
      if task.next >= |entries| then
        task.next == |entries| &&
        B.OutcomeIs(limits, byteLimit, Witnessed(env, events, t), entries,
                    B.Answered(B.Replies(AnswersIn(limits, env, entries, events, t), |entries|)), |entries|)
      else
        B.OutcomeIs(limits, byteLimit, Witnessed(env, events, t), entries, B.TooLarge(byteLimit), task.next + 1)
  {
    RunStaysOnTrack(limits, env, entries, byteLimit, t, actions);
  }
}
