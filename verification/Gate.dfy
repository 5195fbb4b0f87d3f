// The RPC backpressure gate as a step system over any number of request futures.
//
// A future's steps are the atomic operations of the middleware: a relaxed load, a compare-exchange,
// the fetch-and-subtract of a dropped permit and the repair store behind it. Its remaining steps
// are its control flow, the inner service answering, and being dropped where it is suspended.
module Gate {
  import opened Wrappers

  datatype GuardedMethod = SendRawTransaction | GetTransactionCount | SendRawTransactionSync

  // One value for each guarded method.
  datatype PerMethod<T> = PerMethod(sendRaw: T, getCount: T, sendRawSync: T) {
    function Get(m: GuardedMethod): T {
      match m
      case SendRawTransaction => sendRaw
      case GetTransactionCount => getCount
      case SendRawTransactionSync => sendRawSync
    }

    function Set(m: GuardedMethod, v: T): (r: PerMethod<T>)
      ensures r.Get(m) == v
      ensures forall n | n != m :: r.Get(n) == Get(n)
    {
      match m
      case SendRawTransaction => this.(sendRaw := v)
      case GetTransactionCount => this.(getCount := v)
      case SendRawTransactionSync => this.(sendRawSync := v)
    }
  }

  type Limits = PerMethod<nat>

  function FromRpcMethod(name: string): Option<GuardedMethod> {
    if name == "eth_sendRawTransaction" then Some(SendRawTransaction)
    else if name == "eth_getTransactionCount" then Some(GetTransactionCount)
    else if name == "eth_sendRawTransactionSync" then Some(SendRawTransactionSync)
    else None
  }

  // A limit of zero switches the guard of a method off.
  function GuardFor(limits: Limits, target: Option<GuardedMethod>): Option<GuardedMethod> {
    if target.Some? && limits.Get(target.value) > 0 then target else None
  }

  function ClassifyMethod(limits: Limits, name: string): Option<GuardedMethod> {
    GuardFor(limits, FromRpcMethod(name))
  }

  function RpcMethodName(m: GuardedMethod): string {
    match m
    case SendRawTransaction => "eth_sendRawTransaction"
    case GetTransactionCount => "eth_getTransactionCount"
    case SendRawTransactionSync => "eth_sendRawTransactionSync"
  }

  // A request is guarded by a method's gate exactly when it names that method and the gate is on.
  lemma ClassifyIsExact(limits: Limits, name: string, m: GuardedMethod)
    ensures ClassifyMethod(limits, name) == Some(m) <==> name == RpcMethodName(m) && limits.Get(m) > 0
  {
    assert |RpcMethodName(SendRawTransaction)| == 22;
    assert |RpcMethodName(GetTransactionCount)| == 23;
    assert |RpcMethodName(SendRawTransactionSync)| == 26;
  }

  // A batch entry. Of a call only the guarded method its name denotes matters here (FromRpcMethod).
  datatype Entry = Call(target: Option<GuardedMethod>) | Notification | Malformed

  predicate IsGuarded(limits: Limits, entry: Entry) {
    entry.Call? && GuardFor(limits, entry.target).Some?
  }

  predicate HasGuardedCall(limits: Limits, entries: seq<Entry>) {
    exists k | 0 <= k < |entries| :: IsGuarded(limits, entries[k])
  }

  datatype Job = Single(target: Option<GuardedMethod>) | Batch(entries: seq<Entry>)

  datatype Pc =
    | Fresh                                               // not polled yet
    | Ready                                               // a batch, before its next entry
    | Loading(m: GuardedMethod)                           // try_acquire, before the load
    | Swapping(m: GuardedMethod, seen: nat, at: nat)      // before the compare-exchange
    | Awaiting(m: GuardedMethod)                          // suspended in the inner call, guarded
    | Forwarding                                          // suspended in the inner call, unguarded
    | Notifying                                           // suspended in the inner notification
    | Delegated                                           // suspended in the inner batch
    | Dropping(m: GuardedMethod, abandoned: bool)         // permit destructor, before the subtraction
    | Repairing(m: GuardedMethod, abandoned: bool)        // permit destructor, before the store
    | Appending                                           // a response is in hand
    | Gone                                                // answered or dropped

  // One request future. `permits` counts the InflightPermit values it owns, by method. `observed`
  // and `failures` are history: the newest counter version of each gate it has read, and the
  // compare-exchanges it has lost because the counter really had another value.
  datatype Task = Task(
    job: Job, next: nat, pc: Pc, permits: PerMethod<nat>,
    observed: PerMethod<nat>, failures: PerMethod<nat>)

  // `versions` holds every value each counter has had, oldest first; the last one is current.
  datatype System = System(limits: Limits, versions: PerMethod<seq<nat>>, tasks: seq<Task>)

  function Last(versions: seq<nat>): nat {
    if versions == [] then 0 else versions[|versions| - 1]
  }

  function Counter(s: System, m: GuardedMethod): nat {
    Last(s.versions.Get(m))
  }

  function Init(limits: Limits): System {
    System(limits, PerMethod([0], [0], [0]), [])
  }

  function NewTask(job: Job): Task {
    Task(job, 0, Fresh, PerMethod(0, 0, 0), PerMethod(0, 0, 0), PerMethod(0, 0, 0))
  }

  // The guard of the call a future is currently working on.
  function GuardAt(limits: Limits, job: Job, next: nat): Option<GuardedMethod> {
    match job
    case Single(target) => GuardFor(limits, target)
    case Batch(entries) =>
      if next < |entries| && entries[next].Call? then GuardFor(limits, entries[next].target) else None
  }

  function CurrentGuard(limits: Limits, t: Task): Option<GuardedMethod> {
    GuardAt(limits, t.job, t.next)
  }

  datatype Action =
    | Spawn(job: Job)
    | Poll(t: nat)
    | Load(t: nat, version: nat)       // a relaxed load may return any version
    | Swap(t: nat)                     // succeeds only against the current version
    | SwapFail(t: nat, version: nat)   // the version the failing exchange read; spurious if equal
    | Complete(t: nat)
    | Abandon(t: nat)
    | Subtract(t: nat)
    | Store(t: nat)
    | Append(t: nat, fits: bool)

  // Enters `call` for one request: guarded methods go through try_acquire first.
  function Dispatch(limits: Limits, task: Task, target: Option<GuardedMethod>): Task {
    match GuardFor(limits, target)
    case Some(m) => task.(pc := Loading(m))
    case None => task.(pc := Forwarding)
  }

  function AfterDrop(abandoned: bool): Pc {
    if abandoned then Gone else Appending
  }

  function PollTask(limits: Limits, task: Task): Task {
    match task.pc
    case Fresh =>
      (match task.job
       case Single(target) => Dispatch(limits, task, target)
       case Batch(entries) => task.(pc := if HasGuardedCall(limits, entries) then Ready else Delegated))
    case Ready =>
      (match task.job
       case Single(_) => task
       case Batch(entries) =>
         if task.next >= |entries| then task.(pc := Gone)
         else match entries[task.next]
           case Call(target) => Dispatch(limits, task, target)
           case Notification => task.(pc := Notifying)
           case Malformed => task.(pc := Appending))
    case _ => task
  }

  function CompleteTask(task: Task): Task {
    match task.pc
    case Awaiting(m) => task.(pc := Dropping(m, false))
    case Forwarding => task.(pc := Appending)
    case Notifying => task.(pc := Ready, next := task.next + 1)
    case Delegated => task.(pc := Gone)
    case _ => task
  }

  // The future is dropped where it is suspended; an owned permit is dropped with it.
  function AbandonTask(task: Task): Task {
    match task.pc
    case Awaiting(m) => task.(pc := Dropping(m, true))
    case Forwarding => task.(pc := Gone)
    case Fresh => task.(pc := Gone)
    case Notifying => task.(pc := Gone)
    case Delegated => task.(pc := Gone)
    case _ => task
  }

  function AppendTask(task: Task, fits: bool): Task {
    match task.pc
    case Appending =>
      if task.job.Batch? && fits then task.(pc := Ready, next := task.next + 1) else task.(pc := Gone)
    case _ => task
  }

  // fetch_sub on a usize.
  function WrappingDecrement(v: nat): nat {
    if v == 0 then U64_MAX else v - 1
  }

  // Whether a step can be taken at all; a step that cannot leaves the system unchanged.
  predicate Enabled(s: System, a: Action) {
    match a
    case Spawn(_) => true
    case Load(t, version) =>
      t < |s.tasks| && s.tasks[t].pc.Loading? && version < |s.versions.Get(s.tasks[t].pc.m)|
    case Swap(t) =>
      && t < |s.tasks| && s.tasks[t].pc.Swapping?
      && Counter(s, s.tasks[t].pc.m) == s.tasks[t].pc.seen
    case SwapFail(t, version) =>
      t < |s.tasks| && s.tasks[t].pc.Swapping? && version < |s.versions.Get(s.tasks[t].pc.m)|
    case Subtract(t) => t < |s.tasks| && s.tasks[t].pc.Dropping?
    case Store(t) => t < |s.tasks| && s.tasks[t].pc.Repairing?
    case Poll(t) => t < |s.tasks|
    case Complete(t) => t < |s.tasks|
    case Abandon(t) => t < |s.tasks|
    case Append(t, _) => t < |s.tasks|
  }

  function MinusOne(n: nat): nat { if n == 0 then 0 else n - 1 }

  // What the step does to its own future.
  function TaskAfter(s: System, a: Action): Task
    requires Enabled(s, a) && !a.Spawn?
  {
    var task := s.tasks[a.t];
    match a
    case Poll(_) => PollTask(s.limits, task)
    case Load(_, version) =>
      var inflight := s.versions.Get(task.pc.m)[version];
      task.(pc := if inflight >= s.limits.Get(task.pc.m) then Appending
                  else Swapping(task.pc.m, inflight, version),
            observed := task.observed.Set(task.pc.m, version))
    case Swap(_) =>
      task.(pc := Awaiting(task.pc.m), permits := task.permits.Set(task.pc.m, task.permits.Get(task.pc.m) + 1),
            observed := task.observed.Set(task.pc.m, |s.versions.Get(task.pc.m)|))
    case SwapFail(_, version) =>
      var lost := if s.versions.Get(task.pc.m)[version] == task.pc.seen then 0 else 1;
      task.(pc := Loading(task.pc.m), observed := task.observed.Set(task.pc.m, version),
            failures := task.failures.Set(task.pc.m, task.failures.Get(task.pc.m) + lost))
    case Complete(_) => CompleteTask(task)
    case Abandon(_) => AbandonTask(task)
    case Subtract(_) =>
      task.(pc := if Counter(s, task.pc.m) == 0 then Repairing(task.pc.m, task.pc.abandoned)
                  else AfterDrop(task.pc.abandoned),
            permits := task.permits.Set(task.pc.m, MinusOne(task.permits.Get(task.pc.m))),
            observed := task.observed.Set(task.pc.m, |s.versions.Get(task.pc.m)|))
    case Store(_) => task.(pc := AfterDrop(task.pc.abandoned))
    case Append(_, fits) => AppendTask(task, fits)
  }

  // The gate a step writes, and the value it writes.
  function WriteOf(s: System, a: Action): Option<(GuardedMethod, nat)>
    requires Enabled(s, a)
  {
    match a
    case Swap(t) => Some((s.tasks[t].pc.m, WrappingAdd(s.tasks[t].pc.seen, 1, U64_MAX)))
    case Subtract(t) => Some((s.tasks[t].pc.m, WrappingDecrement(Counter(s, s.tasks[t].pc.m))))
    case Store(t) => Some((s.tasks[t].pc.m, 0))
    case _ => None
  }

  function VersionsAfter(s: System, a: Action): PerMethod<seq<nat>>
    requires Enabled(s, a)
  {
    match WriteOf(s, a)
    case Some((m, value)) => s.versions.Set(m, s.versions.Get(m) + [value])
    case None => s.versions
  }

  function TasksAfter(s: System, a: Action): seq<Task>
    requires Enabled(s, a)
  {
    if a.Spawn? then s.tasks + [NewTask(a.job)] else s.tasks[a.t := TaskAfter(s, a)]
  }

  function Step(s: System, a: Action): System {
    if Enabled(s, a) then System(s.limits, VersionsAfter(s, a), TasksAfter(s, a)) else s
  }

  function Run(s: System, actions: seq<Action>): System {
    if actions == [] then s else Step(Run(s, actions[..|actions| - 1]), actions[|actions| - 1])
  }

  // The number of live permits of a method, over all futures.
  function Live(tasks: seq<Task>, m: GuardedMethod): nat {
    if tasks == [] then 0
    else Live(tasks[..|tasks| - 1], m) + tasks[|tasks| - 1].permits.Get(m)
  }
}
