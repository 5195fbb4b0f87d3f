// The middleware's own handling of a request and of a batch with a guarded call.
module Batch {
  import opened Wrappers
  import opened Gate

  datatype Request = Request(id: nat, name: string)

  datatype BatchEntry =
    | Call(req: Request)
    | Notification(name: string)
    | Malformed(id: Option<nat>, error: nat)

  datatype Body =
    | Served(outcome: nat)
    | Overloaded(m: GuardedMethod, limit: nat)
    | Rejected(error: nat)

  // `size` is the length of the serialized response.
  datatype Reply = Reply(id: Option<nat>, body: Body, size: nat)

  // What happens around one batch: whether the gate admits the call at entry k, how the inner
  // service answers it, and how long the middleware's own error responses are.
  datatype Surroundings = Surroundings(
    admits: nat -> bool,
    inner: (nat, Request) -> Reply,
    errorSize: nat -> nat)

  // The inner service answers a request under the request's own id.
  ghost predicate AnswersById(env: Surroundings) {
    forall k, req :: env.inner(k, req).id == Some(req.id)
  }

  function OverloadResponse(limits: Limits, env: Surroundings, k: nat, req: Request, m: GuardedMethod): Reply {
    Reply(Some(req.id), Overloaded(m, limits.Get(m)), env.errorSize(k))
  }

  function CallReply(limits: Limits, env: Surroundings, k: nat, req: Request): Reply {
    match ClassifyMethod(limits, req.name)
    case Some(m) => if env.admits(k) then env.inner(k, req) else OverloadResponse(limits, env, k, req, m)
    case None => env.inner(k, req)
  }

  function ReplyTo(limits: Limits, env: Surroundings, k: nat, entry: BatchEntry): Option<Reply> {
    match entry
    case Call(req) => Some(CallReply(limits, env, k, req))
    case Notification(_) => None
    case Malformed(id, error) => Some(Reply(id, Rejected(error), env.errorSize(k)))
  }

  predicate IsGuardedCall(limits: Limits, entry: BatchEntry) {
    entry.Call? && ClassifyMethod(limits, entry.req.name).Some?
  }

  predicate HasGuarded(limits: Limits, entries: seq<BatchEntry>) {
    exists k | 0 <= k < |entries| :: IsGuardedCall(limits, entries[k])
  }

  // What each entry of a batch is answered with.
  function Answers(limits: Limits, env: Surroundings, entries: seq<BatchEntry>): (answers: seq<Option<Reply>>)
    ensures |answers| == |entries|
    ensures forall k | 0 <= k < |entries| :: answers[k] == ReplyTo(limits, env, k, entries[k])
  {
    seq(|entries|, k requires 0 <= k < |entries| => ReplyTo(limits, env, k, entries[k]))
  }

  function Added(answer: Option<Reply>): seq<Reply> {
    match answer
    case Some(reply) => [reply]
    case None => []
  }

  // The replies among the first k answers, in order.
  function Replies(answers: seq<Option<Reply>>, k: nat): seq<Reply>
    requires k <= |answers|
  {
    if k == 0 then [] else Replies(answers, k - 1) + Added(answers[k - 1])
  }

  // What an entry hands to the inner service or the gate: everything that is not malformed.
  function HandedOn(entry: BatchEntry): seq<BatchEntry> {
    if entry.Malformed? then [] else [entry]
  }

  // What the first k entries hand on, in order.
  function Effects(entries: seq<BatchEntry>, k: nat): seq<BatchEntry>
    requires k <= |entries|
  {
    if k == 0 then [] else Effects(entries, k - 1) + HandedOn(entries[k - 1])
  }

  // The response buffer: an opening bracket, and each reply followed by a comma or the closing one.
  function BufferSize(replies: seq<Reply>): nat {
    1 + Written(replies, |replies|)
  }

  function Written(replies: seq<Reply>, n: nat): nat
    requires n <= |replies|
  {
    if n == 0 then 0 else Written(replies, n - 1) + replies[n - 1].size + 1
  }

  predicate WithinLimit(replies: seq<Reply>, limit: nat) {
    |replies| == 0 || BufferSize(replies) <= limit
  }

  class BatchResponseBuilder {
    const limit: nat
    var length: nat
    var replies: seq<Reply>

    ghost predicate Valid()
      reads this
    {
      length == BufferSize(replies) && WithinLimit(replies, limit)
    }

    constructor (limit: nat)
      ensures Valid() && replies == [] && this.limit == limit
    {
      this.limit, length, replies := limit, 1, [];
    }

    // Refuses a reply that would take the buffer over the limit, and then changes nothing.
    method Append(reply: Reply) returns (ok: bool)
      requires Valid()
      modifies this
      ensures Valid()
      ensures ok <==> WithinLimit(old(replies) + [reply], limit)
      ensures replies == if ok then old(replies) + [reply] else old(replies)
    {
      OneMoreReply(replies, reply);
      ok := reply.size + length + 1 <= limit;
      if ok {
        length := length + reply.size + 1;
        replies := replies + [reply];
      }
    }
  }

  datatype BatchOutcome =
    | HandedOver                           // no guarded call: the inner service takes the batch
    | TooLarge(limit: nat)
    | NotificationOnly
    | Answered(replies: seq<Reply>)

  // One request: a guarded one is served only if the gate admits it.
  method HandleCall(limits: Limits, env: Surroundings, k: nat, req: Request) returns (reply: Reply)
    ensures reply == CallReply(limits, env, k, req)
  {
    var guard := ClassifyMethod(limits, req.name);
    if guard.Some? {
      if !env.admits(k) {
        return OverloadResponse(limits, env, k, req, guard.value);
      }
      return env.inner(k, req);
    }
    return env.inner(k, req);
  }

  // One entry of a batch. `ok` is false when its reply did not fit.
  method HandleEntry(limits: Limits, env: Surroundings, k: nat, entry: BatchEntry, builder: BatchResponseBuilder)
    returns (ok: bool, ran: seq<BatchEntry>)
    requires builder.Valid()
    modifies builder
    ensures builder.Valid() && ran == HandedOn(entry)
    ensures var replies := old(builder.replies) + Added(ReplyTo(limits, env, k, entry));
            && (ok <==> WithinLimit(replies, builder.limit))
            && builder.replies == if ok then replies else old(builder.replies)
  {
    match entry {
      case Call(req) =>
        var reply := HandleCall(limits, env, k, req);
        ok := builder.Append(reply);
        ran := [entry];
      case Notification(_) =>
        assert builder.replies + [] == builder.replies;
        ok, ran := true, [entry];
      case Malformed(id, error) =>
        ok := builder.Append(Reply(id, Rejected(error), env.errorSize(k)));
        ran := [];
    }
  }

  // One of the first k entries is a notification.
  predicate HasNotification(entries: seq<BatchEntry>, k: nat)
    requires k <= |entries|
  {
    k > 0 && (HasNotification(entries, k - 1) || entries[k - 1].Notification?)
  }

  // The loop over the entries. `ran` is what was handed on, `handled` how many entries were reached.
  method HandleEntries(
    limits: Limits, env: Surroundings, entries: seq<BatchEntry>, builder: BatchResponseBuilder)
    returns (ran: seq<BatchEntry>, handled: nat, overflow: bool, gotNotification: bool)
    requires builder.Valid() && builder.replies == []
    modifies builder
    ensures builder.Valid() && handled <= |entries| && ran == Effects(entries, handled)
    ensures !overflow ==>
              handled == |entries| && builder.replies == Replies(Answers(limits, env, entries), handled)
    ensures overflow ==> StopsAt(Answers(limits, env, entries), handled, builder.limit)
    ensures gotNotification <==> HasNotification(entries, handled)
  {
    ghost var answers := Answers(limits, env, entries);
    ran, handled, overflow, gotNotification := [], 0, false, false;
    while handled < |entries|
      invariant 0 <= handled <= |entries| && builder.Valid()
      invariant builder.replies == Replies(answers, handled)
      invariant ran == Effects(entries, handled)
      invariant gotNotification <==> HasNotification(entries, handled)
    {
      var appended, handedOn := HandleEntry(limits, env, handled, entries[handled], builder);
      ran := ran + handedOn;
      gotNotification := gotNotification || entries[handled].Notification?;
      handled := handled + 1;
      if !appended {
        overflow := true;
        return;
      }
    }
  }

  // How a batch ends, and after how many entries: without a guarded call it is handed over, with one
  // it is answered in full exactly when all replies together fit the buffer, and otherwise it stops
  // right after the first entry whose reply did not fit.
  predicate OutcomeIs(
    limits: Limits, byteLimit: nat, env: Surroundings, entries: seq<BatchEntry>, outcome: BatchOutcome, handled: nat)
  {
    var answers := Answers(limits, env, entries);
    var replies := Replies(answers, |answers|);
    && handled <= |entries|
    && (if !HasGuarded(limits, entries) then
          outcome == HandedOver && handled == 0
        else if WithinLimit(replies, byteLimit) then
          outcome == Answered(replies) && handled == |entries|
        else
          outcome == TooLarge(byteLimit) && StopsAt(answers, handled, byteLimit))
  }

  // A whole batch.
  method HandleBatch(limits: Limits, byteLimit: nat, env: Surroundings, entries: seq<BatchEntry>)
    returns (outcome: BatchOutcome, ran: seq<BatchEntry>, handled: nat)
    ensures OutcomeIs(limits, byteLimit, env, entries, outcome, handled)
    ensures ran == Effects(entries, handled)
  {
    if !HasGuarded(limits, entries) {
      return HandedOver, [], 0;
    }
    var builder := new BatchResponseBuilder(byteLimit);
    var overflow, gotNotification;
    ran, handled, overflow, gotNotification := HandleEntries(limits, env, entries, builder);
    if overflow {
      OverflowIsFinal(Answers(limits, env, entries), handled, |entries|, byteLimit);
      return TooLarge(byteLimit), ran, handled;
    }
    GuardedBatchIsAnswered(limits, env, entries);
    if builder.replies == [] && gotNotification {
      outcome := NotificationOnly;
    } else {
      outcome := Answered(builder.replies);
    }
  }

  // The replies among the first k answers do not fit together, and those among the first k - 1 do.
  predicate StopsAt(answers: seq<Option<Reply>>, k: nat, limit: nat)
    requires k <= |answers|
  {
    k > 0 && WithinLimit(Replies(answers, k - 1), limit) && !WithinLimit(Replies(answers, k), limit)
  }

  lemma OneMoreReply(replies: seq<Reply>, reply: Reply)
    ensures BufferSize(replies + [reply]) == BufferSize(replies) + reply.size + 1
  {
    WrittenBefore(replies, reply, |replies|);
  }

  lemma {:induction false} WrittenBefore(replies: seq<Reply>, reply: Reply, n: nat)
    requires n <= |replies|
    ensures Written(replies + [reply], n) == Written(replies, n)
  {
    if n > 0 {
      WrittenBefore(replies, reply, n - 1);
    }
  }

  // The same size, counted over the answers: one byte more than nothing means that nothing was added.
  function SizeAfter(answers: seq<Option<Reply>>, n: nat): nat
    requires n <= |answers|
  {
    if n == 0 then 1
    else SizeAfter(answers, n - 1) + (if answers[n - 1].Some? then answers[n - 1].value.size + 1 else 0)
  }

  predicate FitsAfter(answers: seq<Option<Reply>>, n: nat, limit: nat)
    requires n <= |answers|
  {
    SizeAfter(answers, n) == 1 || SizeAfter(answers, n) <= limit
  }

  lemma {:induction false} SizesAgree(answers: seq<Option<Reply>>, n: nat)
    requires n <= |answers|
    ensures BufferSize(Replies(answers, n)) == SizeAfter(answers, n)
    ensures |Replies(answers, n)| == 0 <==> SizeAfter(answers, n) == 1
  {
    if n > 0 {
      SizesAgree(answers, n - 1);
      match answers[n - 1]
      case Some(reply) => OneMoreReply(Replies(answers, n - 1), reply);
      case None => assert Replies(answers, n) == Replies(answers, n - 1);
    }
  }

  // Replies only accumulate, so once a prefix is over the limit every longer one is.
  lemma {:induction false} OverflowIsFinal(answers: seq<Option<Reply>>, j: nat, k: nat, limit: nat)
    requires j <= k <= |answers| && !WithinLimit(Replies(answers, j), limit)
    ensures !WithinLimit(Replies(answers, k), limit)
  {
    if j < k {
      var before := Replies(answers, k - 1);
      OverflowIsFinal(answers, j, k - 1, limit);
      match answers[k - 1]
      case Some(reply) => OneMoreReply(before, reply);
      case None => assert before + [] == before;
    }
  }

  // A reply that does not fit ends the batch there, and all replies together do not fit either.
  lemma OverflowEnds(answers: seq<Option<Reply>>, k: nat, limit: nat)
    requires k < |answers|
    requires WithinLimit(Replies(answers, k), limit) && !WithinLimit(Replies(answers, k + 1), limit)
    ensures StopsAt(answers, k + 1, limit) && !WithinLimit(Replies(answers, |answers|), limit)
  {
    OverflowIsFinal(answers, k + 1, |answers|, limit);
  }

  // The entry a batch stops at is the first whose reply does not fit: there is only one such place.
  lemma StopsAtTheFirstOverflow(answers: seq<Option<Reply>>, k: nat, j: nat, limit: nat)
    requires k <= |answers| && j <= |answers| && StopsAt(answers, k, limit)
    ensures WithinLimit(Replies(answers, j), limit) <==> j < k
  {
    if j >= k {
      OverflowIsFinal(answers, k, j, limit);
    } else if !WithinLimit(Replies(answers, j), limit) {
      OverflowIsFinal(answers, j, k - 1, limit);
      assert false;
    }
  }

  // There is only one way a batch can end.
  lemma OutcomeIsUnique(
    limits: Limits, byteLimit: nat, env: Surroundings, entries: seq<BatchEntry>,
    a: BatchOutcome, j: nat, b: BatchOutcome, k: nat)
    requires OutcomeIs(limits, byteLimit, env, entries, a, j)
    requires OutcomeIs(limits, byteLimit, env, entries, b, k)
    ensures a == b && j == k
  {
    var answers := Answers(limits, env, entries);
    if HasGuarded(limits, entries) && !WithinLimit(Replies(answers, |answers|), byteLimit) {
      StopsAtTheFirstOverflow(answers, j, k, byteLimit);
      StopsAtTheFirstOverflow(answers, k, j, byteLimit);
    }
  }

  // The response of a batch with a guarded call is never empty: the branch that answers a batch of
  // notifications with nothing is not reached here.
  lemma GuardedBatchIsAnswered(limits: Limits, env: Surroundings, entries: seq<BatchEntry>)
    requires HasGuarded(limits, entries)
    ensures Replies(Answers(limits, env, entries), |entries|) != []
  {
    var k :| 0 <= k < |entries| && IsGuardedCall(limits, entries[k]);
    RepliesGrow(Answers(limits, env, entries), k + 1, |entries|);
  }

  lemma {:induction false} RepliesGrow(answers: seq<Option<Reply>>, j: nat, k: nat)
    requires j <= k <= |answers|
    ensures |Replies(answers, j)| <= |Replies(answers, k)|
  {
    if j < k {
      RepliesGrow(answers, j, k - 1);
    }
  }

  // --- What is handed on, and what is answered ---

  // How many of the first k entries are calls or notifications.
  function WellFormedBefore(entries: seq<BatchEntry>, k: nat): nat
    requires k <= |entries|
  {
    if k == 0 then 0
    else WellFormedBefore(entries, k - 1) + (if entries[k - 1].Call? || entries[k - 1].Notification? then 1 else 0)
  }

  // Every call and every notification is handed on, once, in order, and nothing else is.
  lemma {:induction false} EffectsExactly(entries: seq<BatchEntry>, n: nat)
    requires n <= |entries|
    ensures |Effects(entries, n)| == WellFormedBefore(entries, n)
    ensures forall k | 0 <= k < n && (entries[k].Call? || entries[k].Notification?) ::
              WellFormedBefore(entries, k) < |Effects(entries, n)| &&
              Effects(entries, n)[WellFormedBefore(entries, k)] == entries[k]
  {
    if n > 0 { EffectsExactly(entries, n - 1); }
  }

  // How many of the first k entries are calls or malformed.
  function AnswerableBefore(entries: seq<BatchEntry>, k: nat): nat
    requires k <= |entries|
  {
    if k == 0 then 0
    else AnswerableBefore(entries, k - 1) + (if entries[k - 1].Call? || entries[k - 1].Malformed? then 1 else 0)
  }

  // The answer to one entry. A guarded call that the gate does not admit gets the overload error, a
  // malformed entry its own error, and every other call what the inner service says.
  ghost predicate IsAnswerTo(limits: Limits, env: Surroundings, k: nat, entry: BatchEntry, reply: Reply) {
    match entry
    case Call(req) =>
      if exists m :: req.name == RpcMethodName(m) && limits.Get(m) > 0 && !env.admits(k)
      then exists m :: req.name == RpcMethodName(m) && limits.Get(m) > 0 &&
                       reply == Reply(Some(req.id), Overloaded(m, limits.Get(m)), env.errorSize(k))
      else reply == env.inner(k, req)
    case Notification(_) => false
    case Malformed(id, error) => reply == Reply(id, Rejected(error), env.errorSize(k))
  }

  lemma AnswerExactly(limits: Limits, env: Surroundings, k: nat, entry: BatchEntry)
    ensures match ReplyTo(limits, env, k, entry)
            case Some(reply) => IsAnswerTo(limits, env, k, entry, reply)
            case None => entry.Notification?
  {
    if entry.Call? {
      forall m ensures ClassifyMethod(limits, entry.req.name) == Some(m) <==>
                       entry.req.name == RpcMethodName(m) && limits.Get(m) > 0
      {
        ClassifyIsExact(limits, entry.req.name, m);
      }
      match ClassifyMethod(limits, entry.req.name)
      case Some(m) => assert entry.req.name == RpcMethodName(m);
      case None =>
    }
  }

  predicate AnswersTheAnswerable(answers: seq<Option<Reply>>, entries: seq<BatchEntry>) {
    && |answers| == |entries|
    && forall k | 0 <= k < |entries| :: answers[k].Some? <==> entries[k].Call? || entries[k].Malformed?
  }

  lemma {:induction false} RepliesCounted(answers: seq<Option<Reply>>, entries: seq<BatchEntry>, n: nat)
    requires n <= |entries| && AnswersTheAnswerable(answers, entries)
    ensures |Replies(answers, n)| == AnswerableBefore(entries, n)
  {
    if n > 0 { RepliesCounted(answers, entries, n - 1); }
  }

  // A reply stands behind as many others as there are answers before it.
  lemma {:induction false} ReplyPlaced(answers: seq<Option<Reply>>, entries: seq<BatchEntry>, n: nat, k: nat)
    requires k < n <= |entries| && AnswersTheAnswerable(answers, entries) && answers[k].Some?
    ensures AnswerableBefore(entries, k) < |Replies(answers, n)|
    ensures Replies(answers, n)[AnswerableBefore(entries, k)] == answers[k].value
  {
    if k < n - 1 {
      ReplyPlaced(answers, entries, n - 1, k);
    } else {
      RepliesCounted(answers, entries, k);
    }
  }

  // Every call and every malformed entry is answered, once, in order, and nothing else is.
  lemma RepliesExactly(limits: Limits, env: Surroundings, entries: seq<BatchEntry>, n: nat)
    requires n <= |entries|
    ensures |Replies(Answers(limits, env, entries), n)| == AnswerableBefore(entries, n)
    ensures forall k | 0 <= k < n && (entries[k].Call? || entries[k].Malformed?) ::
              AnswerableBefore(entries, k) < |Replies(Answers(limits, env, entries), n)| &&
              IsAnswerTo(limits, env, k, entries[k],
                         Replies(Answers(limits, env, entries), n)[AnswerableBefore(entries, k)])
  {
    var answers := Answers(limits, env, entries);
    forall k | 0 <= k < |entries|
      ensures answers[k].Some? <==> entries[k].Call? || entries[k].Malformed?
      ensures answers[k].Some? ==> IsAnswerTo(limits, env, k, entries[k], answers[k].value)
    {
      AnswerExactly(limits, env, k, entries[k]);
    }
    RepliesCounted(answers, entries, n);
    forall k | 0 <= k < n && answers[k].Some?
      ensures AnswerableBefore(entries, k) < |Replies(answers, n)|
      ensures Replies(answers, n)[AnswerableBefore(entries, k)] == answers[k].value
    {
      ReplyPlaced(answers, entries, n, k);
    }
  }

  // The response as text: the replies between brackets, separated by commas.
  function Joined(texts: seq<string>): string {
    if texts == [] then ""
    else if |texts| == 1 then texts[0]
    else Joined(texts[..|texts| - 1]) + "," + texts[|texts| - 1]
  }

  lemma {:induction false} JoinedLength(replies: seq<Reply>, texts: seq<string>, n: nat)
    requires 0 < n <= |texts| == |replies|
    requires forall k | 0 <= k < |texts| :: |texts[k]| == replies[k].size
    ensures |Joined(texts[..n])| + 1 == Written(replies, n)
  {
    if n == 1 {
      assert texts[..1] == [texts[0]];
      assert Written(replies, 0) == 0;
    } else {
      JoinedLength(replies, texts, n - 1);
      assert texts[..n][..n - 1] == texts[..n - 1];
    }
  }

  // The buffer is as long as the text of the response, so the byte limit is a limit on that text.
  lemma BufferIsTheText(replies: seq<Reply>, texts: seq<string>, limit: nat)
    requires 0 < |texts| == |replies|
    requires forall k | 0 <= k < |texts| :: |texts[k]| == replies[k].size
    ensures |"[" + Joined(texts) + "]"| == BufferSize(replies)
    ensures WithinLimit(replies, limit) <==> |"[" + Joined(texts) + "]"| <= limit
  {
    JoinedLength(replies, texts, |texts|);
    assert texts[..|texts|] == texts;
  }

  // The three ways a batch ends, told apart by its entries and by the sizes of its replies.
  lemma OutcomeExactly(
    limits: Limits, byteLimit: nat, env: Surroundings, entries: seq<BatchEntry>, outcome: BatchOutcome, handled: nat)
    requires OutcomeIs(limits, byteLimit, env, entries, outcome, handled)
    ensures outcome.HandedOver? <==>
            forall k, m | 0 <= k < |entries| && entries[k].Call? ::
              entries[k].req.name == RpcMethodName(m) ==> limits.Get(m) == 0
    ensures outcome.HandedOver? ==> handled == 0
    ensures outcome.Answered? ==>
              && handled == |entries| && outcome.replies != []
              && outcome.replies == Replies(Answers(limits, env, entries), handled)
              && BufferSize(outcome.replies) <= byteLimit
    ensures outcome.TooLarge? ==>
              var answers := Answers(limits, env, entries);
              && outcome.limit == byteLimit && 0 < handled <= |entries|
              && BufferSize(Replies(answers, handled)) > byteLimit
              && (Replies(answers, handled - 1) == [] || BufferSize(Replies(answers, handled - 1)) <= byteLimit)
    ensures !outcome.NotificationOnly?
  {
    forall k, m | 0 <= k < |entries| && entries[k].Call?
      ensures ClassifyMethod(limits, entries[k].req.name) == Some(m) <==>
              entries[k].req.name == RpcMethodName(m) && limits.Get(m) > 0
    {
      ClassifyIsExact(limits, entries[k].req.name, m);
    }
    if HasGuarded(limits, entries) {
      GuardedBatchIsAnswered(limits, env, entries);
      var k :| 0 <= k < |entries| && IsGuardedCall(limits, entries[k]);
      var m := ClassifyMethod(limits, entries[k].req.name).value;
      assert entries[k].req.name == RpcMethodName(m);
    }
  }

  // --- One response for each call or malformed entry ---

  // The ids JSON-RPC 2.0 (section 6) wants answered for one entry: none for a notification.
  function IdsFor(entry: BatchEntry): seq<Option<nat>> {
    match entry
    case Call(req) => [Some(req.id)]
    case Notification(_) => []
    case Malformed(id, _) => [id]
  }

  function ExpectedIds(entries: seq<BatchEntry>, k: nat): seq<Option<nat>>
    requires k <= |entries|
  {
    if k == 0 then [] else ExpectedIds(entries, k - 1) + IdsFor(entries[k - 1])
  }

  function Ids(replies: seq<Reply>): seq<Option<nat>> {
    seq(|replies|, k requires 0 <= k < |replies| => replies[k].id)
  }

  function IdsOf(answer: Option<Reply>): seq<Option<nat>> {
    match answer
    case Some(reply) => [reply.id]
    case None => []
  }

  lemma ReplyCarriesId(limits: Limits, env: Surroundings, k: nat, entry: BatchEntry)
    requires AnswersById(env)
    ensures IdsOf(ReplyTo(limits, env, k, entry)) == IdsFor(entry)
  {
    if entry.Call? {
      assert env.inner(k, entry.req).id == Some(entry.req.id);
    }
  }

  lemma OneMoreId(replies: seq<Reply>, reply: Reply)
    ensures Ids(replies + [reply]) == Ids(replies) + [reply.id]
  {
  }

  lemma {:induction false} IdsInOrder(answers: seq<Option<Reply>>, entries: seq<BatchEntry>, k: nat)
    requires k <= |answers| == |entries|
    requires forall j | 0 <= j < |entries| :: IdsOf(answers[j]) == IdsFor(entries[j])
    ensures Ids(Replies(answers, k)) == ExpectedIds(entries, k)
  {
    if k > 0 {
      IdsInOrder(answers, entries, k - 1);
      match answers[k - 1]
      case Some(reply) => OneMoreId(Replies(answers, k - 1), reply);
      case None => assert Replies(answers, k) == Replies(answers, k - 1);
    }
  }

  lemma {:induction false} OneReplyPerEntry(limits: Limits, env: Surroundings, entries: seq<BatchEntry>, k: nat)
    requires AnswersById(env) && k <= |entries|
    ensures Ids(Replies(Answers(limits, env, entries), k)) == ExpectedIds(entries, k)
  {
    var answers := Answers(limits, env, entries);
    forall j | 0 <= j < |entries| ensures IdsOf(answers[j]) == IdsFor(entries[j]) {
      ReplyCarriesId(limits, env, j, entries[j]);
    }
    IdsInOrder(answers, entries, k);
  }

  // An overloaded method is reported to the caller under its own id, with its name and limit; a
  // method whose limit is zero is never refused. Every other answer is the inner service's.
  lemma RefusalIsReported(limits: Limits, env: Surroundings, k: nat, req: Request)
    requires AnswersById(env)
    requires forall j, r :: env.inner(j, r).body.Served?
    ensures CallReply(limits, env, k, req).id == Some(req.id)
    ensures CallReply(limits, env, k, req).body.Overloaded? <==>
            ClassifyMethod(limits, req.name).Some? && !env.admits(k)
    ensures CallReply(limits, env, k, req).body.Overloaded? ==>
              && req.name == RpcMethodName(CallReply(limits, env, k, req).body.m)
              && CallReply(limits, env, k, req).body.limit == limits.Get(CallReply(limits, env, k, req).body.m) > 0
    ensures CallReply(limits, env, k, req).body.Overloaded? ==> CallReply(limits, env, k, req).size == env.errorSize(k)
    ensures !CallReply(limits, env, k, req).body.Overloaded? ==> CallReply(limits, env, k, req) == env.inner(k, req)
  {
    match ClassifyMethod(limits, req.name)
    case Some(m) => ClassifyIsExact(limits, req.name, m);
    case None =>
  }
}
