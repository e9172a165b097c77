/** The lock-free bounded queue of cyber/base/bounded_queue.h as a transition system.

    Any number of threads call Enqueue and Dequeue.  Every atomic load, slot access and
    compare-and-swap is one step of one thread, and steps interleave freely.  The weak
    compare-and-swaps may fail spuriously.  The 64-bit counters are unbounded here.

    Two history components record what happened: `claimed[k-1]` is the value of the Enqueue
    that claimed ticket k, and `taken` lists the values of the successful Dequeues in the
    order of their head updates. */
module BoundedQueue {
  import opened RingIndex

  /** The element type; nothing is assumed about it. */
  type Value(!new)

  /** Where a thread stands inside Enqueue or Dequeue, with its local variables. */
  datatype Pc =
    | Idle
    | EnqLoadHead(value: Value, oldTail: nat)
    | EnqCasTail(value: Value, oldTail: nat)
    | EnqWriteSlot(value: Value, ticket: nat)
    | EnqCasCommit(value: Value, ticket: nat)
    | DeqLoadCommit(oldHead: nat)
    | DeqReadSlot(oldHead: nat)
    | DeqCasHead(oldHead: nat, element: Value)

  datatype State = State(
    poolSize: nat, head: nat, tail: nat, commit: nat, pool: seq<Value>,
    threads: seq<Pc>, claimed: seq<Value>, taken: seq<Value>)

  /** What a step tells the outside world: the response of the call that it completes. */
  datatype Event = Internal | Enqueued(value: Value) | EnqueueFull | Dequeued(value: Value) | DequeueEmpty

  function GetIndex(num: nat, poolSize: nat): (index: nat)
    requires poolSize > 0
    ensures index < poolSize && index == num % poolSize
  {
    num - (num / poolSize) * poolSize
  }

  /** What Size() reports when nothing moves between its two loads, of the tail and of the head. */
  function Size(s: State): int {
    s.tail - s.head - 1
  }

  // ----- the steps -----

  /** Init(size): two more slots than elements, any default slot contents, every thread idle. */
  ghost predicate Init(s: State, size: nat) {
    && s.poolSize == size + 2 && |s.pool| == s.poolSize
    && s.head == 0 && s.tail == 1 && s.commit == 1
    && (forall t :: 0 <= t < |s.threads| ==> s.threads[t] == Idle)
    && s.claimed == [] && s.taken == []
  }

  ghost function Goto(s: State, t: nat, pc: Pc): State
    requires t < |s.threads|
  {
    s.(threads := s.threads[t := pc])
  }

  ghost predicate EnqStart(s: State, t: nat, e: Event, s': State)
    requires t < |s.threads|
  {
    s.threads[t].Idle? && e == Internal && exists v: Value :: s' == Goto(s, t, EnqLoadHead(v, s.tail))
  }

  ghost predicate EnqCheckFull(s: State, t: nat, e: Event, s': State)
    requires t < |s.threads| && s.poolSize > 0
  {
    && s.threads[t].EnqLoadHead?
    && var EnqLoadHead(v, oldTail) := s.threads[t];
    if GetIndex(oldTail + 1, s.poolSize) == GetIndex(s.head, s.poolSize) then
      e == EnqueueFull && s' == Goto(s, t, Idle)
    else
      e == Internal && s' == Goto(s, t, EnqCasTail(v, oldTail))
  }

  ghost predicate EnqClaim(s: State, t: nat, e: Event, s': State)
    requires t < |s.threads|
  {
    && s.threads[t].EnqCasTail? && e == Internal
    && var EnqCasTail(v, oldTail) := s.threads[t];
    || (s.tail == oldTail
        && s' == Goto(s, t, EnqWriteSlot(v, oldTail)).(tail := oldTail + 1, claimed := s.claimed + [v]))
    || s' == Goto(s, t, EnqLoadHead(v, s.tail))
  }

  ghost predicate EnqWrite(s: State, t: nat, e: Event, s': State)
    requires t < |s.threads| && s.poolSize > 0 && |s.pool| == s.poolSize
  {
    && s.threads[t].EnqWriteSlot? && e == Internal
    && var EnqWriteSlot(v, ticket) := s.threads[t];
    s' == Goto(s, t, EnqCasCommit(v, ticket)).(pool := s.pool[GetIndex(ticket, s.poolSize) := v])
  }

  ghost predicate EnqPublish(s: State, t: nat, e: Event, s': State)
    requires t < |s.threads|
  {
    && s.threads[t].EnqCasCommit?
    && var EnqCasCommit(v, ticket) := s.threads[t];
    || (s.commit == ticket && e == Enqueued(v) && s' == Goto(s, t, Idle).(commit := ticket + 1))
    || (e == Internal && s' == s)
  }

  ghost predicate DeqStart(s: State, t: nat, e: Event, s': State)
    requires t < |s.threads|
  {
    s.threads[t].Idle? && e == Internal && s' == Goto(s, t, DeqLoadCommit(s.head))
  }

  ghost predicate DeqCheckEmpty(s: State, t: nat, e: Event, s': State)
    requires t < |s.threads|
  {
    && s.threads[t].DeqLoadCommit?
    && var oldHead := s.threads[t].oldHead;
    if oldHead + 1 == s.commit then
      e == DequeueEmpty && s' == Goto(s, t, Idle)
    else
      e == Internal && s' == Goto(s, t, DeqReadSlot(oldHead))
  }

  ghost predicate DeqRead(s: State, t: nat, e: Event, s': State)
    requires t < |s.threads| && s.poolSize > 0 && |s.pool| == s.poolSize
  {
    && s.threads[t].DeqReadSlot? && e == Internal
    && var oldHead := s.threads[t].oldHead;
    s' == Goto(s, t, DeqCasHead(oldHead, s.pool[GetIndex(oldHead + 1, s.poolSize)]))
  }

  ghost predicate DeqTake(s: State, t: nat, e: Event, s': State)
    requires t < |s.threads|
  {
    && s.threads[t].DeqCasHead?
    && var DeqCasHead(oldHead, element) := s.threads[t];
    || (s.head == oldHead && e == Dequeued(element)
        && s' == Goto(s, t, Idle).(head := oldHead + 1, taken := s.taken + [element]))
    || (e == Internal && s' == Goto(s, t, DeqLoadCommit(s.head)))
  }

  ghost predicate Step(s: State, t: nat, e: Event, s': State) {
    && t < |s.threads| && s.poolSize > 0 && |s.pool| == s.poolSize
    && (|| EnqStart(s, t, e, s') || EnqCheckFull(s, t, e, s') || EnqClaim(s, t, e, s')
        || EnqWrite(s, t, e, s') || EnqPublish(s, t, e, s')
        || DeqStart(s, t, e, s') || DeqCheckEmpty(s, t, e, s') || DeqRead(s, t, e, s')
        || DeqTake(s, t, e, s'))
  }

  // ----- the invariant -----

  ghost predicate InFlight(pc: Pc, k: nat) {
    (pc.EnqWriteSlot? || pc.EnqCasCommit?) && pc.ticket == k
  }

  ghost predicate PcInv(s: State, pc: Pc)
    requires s.poolSize > 0 && |s.pool| == s.poolSize && |s.claimed| == s.tail - 1
  {
    match pc
    case Idle => true
    case EnqLoadHead(_, oldTail) => 1 <= oldTail <= s.tail
    case EnqCasTail(_, oldTail) =>
      1 <= oldTail <= s.tail && (oldTail == s.tail ==> oldTail + 1 < s.head + s.poolSize)
    case EnqWriteSlot(v, ticket) => 1 <= s.commit <= ticket < s.tail && s.claimed[ticket - 1] == v
    case EnqCasCommit(v, ticket) =>
      && 1 <= s.commit <= ticket < s.tail && s.claimed[ticket - 1] == v
      && s.pool[GetIndex(ticket, s.poolSize)] == v
    case DeqLoadCommit(oldHead) => oldHead <= s.head
    case DeqReadSlot(oldHead) => oldHead <= s.head && (oldHead == s.head ==> oldHead + 1 < s.commit)
    case DeqCasHead(oldHead, element) =>
      && oldHead <= s.head
      && (oldHead == s.head ==> oldHead + 1 < s.commit <= s.tail && element == s.claimed[oldHead])
  }

  ghost predicate Bounds(s: State) {
    && s.poolSize >= 2 && |s.pool| == s.poolSize
    && s.head < s.commit <= s.tail < s.head + s.poolSize
    && |s.claimed| == s.tail - 1
  }

  ghost predicate Stored(s: State)
    requires Bounds(s)
  {
    forall k :: s.head < k < s.commit ==> s.pool[GetIndex(k, s.poolSize)] == s.claimed[k - 1]
  }

  ghost predicate HasOwner(s: State, k: nat) {
    exists t :: 0 <= t < |s.threads| && InFlight(s.threads[t], k)
  }

  ghost predicate OwnedTickets(s: State) {
    && (forall k: nat :: s.commit <= k < s.tail ==> HasOwner(s, k))
    && (forall t, u, k | 0 <= t < |s.threads| && 0 <= u < |s.threads|
                         && InFlight(s.threads[t], k) && InFlight(s.threads[u], k) :: t == u)
  }

  ghost predicate Inv(s: State) {
    && Bounds(s)
    && s.taken == s.claimed[..s.head]
    && Stored(s)
    && OwnedTickets(s)
    && (forall t :: 0 <= t < |s.threads| ==> PcInv(s, s.threads[t]))
  }

  lemma InitInv(s: State, size: nat)
    requires Init(s, size)
    ensures Inv(s)
  {
  }

  lemma CheckFullInv(s: State, t: nat, e: Event, s': State)
    requires Inv(s) && t < |s.threads| && EnqCheckFull(s, t, e, s')
    ensures Inv(s')
  {
    var oldTail := s.threads[t].oldTail;
    if oldTail == s.tail && oldTail + 1 == s.head + s.poolSize {
      SlotsMeet(s.head, s.poolSize);
    }
    KeepsOwners(s, t, s');
  }

  /** A step of thread t that neither takes up nor gives up a ticket keeps the ticket owners. */
  lemma KeepsOwners(s: State, t: nat, s': State)
    requires t < |s.threads| && |s'.threads| == |s.threads|
    requires s'.threads == s.threads[t := s'.threads[t]]
    requires forall k :: InFlight(s.threads[t], k) <==> InFlight(s'.threads[t], k)
    requires s.commit == s'.commit && s.tail == s'.tail
    requires OwnedTickets(s)
    ensures OwnedTickets(s')
  {
    forall k: nat | s'.commit <= k < s'.tail
      ensures HasOwner(s', k)
    {
      assert HasOwner(s, k);
      var u :| 0 <= u < |s.threads| && InFlight(s.threads[u], k);
      assert InFlight(s'.threads[u], k);
    }
  }

  lemma ClaimOwners(s: State, t: nat, e: Event, s': State)
    requires Inv(s) && t < |s.threads| && EnqClaim(s, t, e, s') && s'.tail != s.tail
    ensures OwnedTickets(s')
  {
    forall k: nat | s'.commit <= k < s'.tail
      ensures HasOwner(s', k)
    {
      if k == s.tail {
        assert InFlight(s'.threads[t], k);
      } else {
        assert HasOwner(s, k);
        var u :| 0 <= u < |s.threads| && InFlight(s.threads[u], k);
        assert InFlight(s'.threads[u], k);
      }
    }
  }

  lemma ClaimInv(s: State, t: nat, e: Event, s': State)
    requires Inv(s) && t < |s.threads| && EnqClaim(s, t, e, s')
    ensures Inv(s')
  {
    if s'.tail == s.tail {
      KeepsOwners(s, t, s');
    } else {
      ClaimOwners(s, t, e, s');
      assert s'.claimed[..s'.head] == s.claimed[..s.head];
    }
  }

  lemma WriteStored(s: State, t: nat, e: Event, s': State)
    requires Inv(s) && t < |s.threads| && EnqWrite(s, t, e, s')
    ensures Stored(s')
  {
    var ticket := s.threads[t].ticket;
    forall k | s'.head < k < s'.commit
      ensures s'.pool[GetIndex(k, s.poolSize)] == s'.claimed[k - 1]
    {
      SlotsDiffer(k, ticket, s.poolSize);
    }
  }

  lemma WritePc(s: State, t: nat, e: Event, s': State, u: nat)
    requires Inv(s) && t < |s.threads| && EnqWrite(s, t, e, s') && u < |s'.threads|
    ensures PcInv(s', s'.threads[u])
  {
    var ticket := s.threads[t].ticket;
    assert InFlight(s.threads[t], ticket);
    if u != t && s.threads[u].EnqCasCommit? {
      var other := s.threads[u].ticket;
      assert InFlight(s.threads[u], other);
      SlotsDiffer(if other < ticket then other else ticket, if other < ticket then ticket else other, s.poolSize);
    }
  }

  lemma WriteInv(s: State, t: nat, e: Event, s': State)
    requires Inv(s) && t < |s.threads| && EnqWrite(s, t, e, s')
    ensures Inv(s')
  {
    KeepsOwners(s, t, s');
    WriteStored(s, t, e, s');
    forall u | 0 <= u < |s'.threads|
      ensures PcInv(s', s'.threads[u])
    {
      WritePc(s, t, e, s', u);
    }
  }

  lemma PublishOwners(s: State, t: nat, e: Event, s': State)
    requires Inv(s) && t < |s.threads| && EnqPublish(s, t, e, s') && s'.commit != s.commit
    ensures OwnedTickets(s')
  {
    assert InFlight(s.threads[t], s.commit);
    forall k: nat | s'.commit <= k < s'.tail
      ensures HasOwner(s', k)
    {
      assert HasOwner(s, k);
      var u :| 0 <= u < |s.threads| && InFlight(s.threads[u], k);
      assert InFlight(s'.threads[u], k);
    }
  }

  lemma PublishInv(s: State, t: nat, e: Event, s': State)
    requires Inv(s) && t < |s.threads| && EnqPublish(s, t, e, s')
    ensures Inv(s')
  {
    if s'.commit != s.commit {
      assert InFlight(s.threads[t], s.commit);
      PublishOwners(s, t, e, s');
      forall u | 0 <= u < |s'.threads|
        ensures PcInv(s', s'.threads[u])
      {
        if u != t && InFlight(s.threads[u], s.commit) {
          assert false;
        }
      }
    }
  }

  lemma DequeueInv(s: State, t: nat, e: Event, s': State)
    requires Inv(s) && t < |s.threads|
    requires DeqStart(s, t, e, s') || DeqCheckEmpty(s, t, e, s') || DeqRead(s, t, e, s') || DeqTake(s, t, e, s')
    ensures Inv(s')
  {
    KeepsOwners(s, t, s');
    if s'.head != s.head {
      assert s'.taken == s'.claimed[..s'.head];
    }
  }

  /** Every step of every thread keeps the invariant. */
  lemma StepInv(s: State, t: nat, e: Event, s': State)
    requires Inv(s) && Step(s, t, e, s')
    ensures Inv(s')
  {
    if EnqStart(s, t, e, s') {
      KeepsOwners(s, t, s');
    } else if EnqCheckFull(s, t, e, s') {
      CheckFullInv(s, t, e, s');
    } else if EnqClaim(s, t, e, s') {
      ClaimInv(s, t, e, s');
    } else if EnqWrite(s, t, e, s') {
      WriteInv(s, t, e, s');
    } else if EnqPublish(s, t, e, s') {
      PublishInv(s, t, e, s');
    } else {
      DequeueInv(s, t, e, s');
    }
  }

  // ----- linearizability -----

  /** The abstract queue: committed and not yet taken. */
  ghost function Contents(s: State): seq<Value>
    requires Bounds(s)
  {
    s.claimed[s.head..s.commit - 1]
  }

  /** What a sequential queue allows: its contents after the event, if the event is legal. */
  ghost predicate SequentialStep(q: seq<Value>, e: Event, q': seq<Value>) {
    match e
    case Internal => q' == q
    case Enqueued(v) => q' == q + [v]
    case EnqueueFull => q' == q
    case Dequeued(v) => q != [] && v == q[0] && q' == q[1..]
    case DequeueEmpty => q == [] && q' == q
  }

  /** Every concurrent step is a legal step of the sequential queue at that same moment: an
      Enqueue appends when its commit succeeds, a Dequeue removes the front when its head update
      succeeds, and a Dequeue that reports failure does so while the queue is empty. */
  lemma StepRefinesQueue(s: State, t: nat, e: Event, s': State)
    requires Inv(s) && Step(s, t, e, s')
    ensures Bounds(s') && SequentialStep(Contents(s), e, Contents(s'))
    ensures |Contents(s')| <= s.poolSize - 2 == s'.poolSize - 2
  {
    StepInv(s, t, e, s');
    ClaimedGrows(s, t, e, s');
    if s'.commit != s.commit {
      assert s.claimed[s.head..s.commit] == Contents(s) + [s.claimed[s.commit - 1]];
    } else if s'.head != s.head {
      assert Contents(s') == Contents(s)[1..];
    } else {
      assert Contents(s') == Contents(s);
    }
  }

  lemma ClaimedGrows(s: State, t: nat, e: Event, s': State)
    requires Inv(s) && Step(s, t, e, s')
    ensures s.claimed <= s'.claimed && s.poolSize == s'.poolSize && s.head <= s'.head && s.commit <= s'.commit
  {
  }

  /** The events of a run, oldest first. */
  datatype Trace = Start | Then(before: Trace, event: Event)

  ghost predicate Next(s: State, e: Event, s': State) {
    exists t :: Step(s, t, e, s')
  }

  /** Some run from Init(size) shows these events and ends in s. */
  ghost predicate Reaches(size: nat, run: Trace, s: State) {
    match run
    case Start => Init(s, size)
    case Then(before, e) => exists p :: Reaches(size, before, p) && Next(p, e, s)
  }

  /** A sequential queue can show these events, one at a time, and then holds q. */
  ghost predicate LegalHistory(run: Trace, q: seq<Value>) {
    match run
    case Start => q == []
    case Then(before, e) => exists p :: LegalHistory(before, p) && SequentialStep(p, e, q)
  }

  /** The responses of any run, in the order of their linearization points, are a history of
      a sequential FIFO queue that never holds more than `size` elements. */
  lemma {:induction false} RunsAreLinearizable(size: nat, run: Trace, s: State)
    requires Reaches(size, run, s)
    ensures Inv(s) && s.poolSize == size + 2
    ensures LegalHistory(run, Contents(s))
    ensures |Contents(s)| <= Size(s) == |Contents(s)| + (s.tail - s.commit) <= size
  {
    match run
    case Start =>
      InitInv(s, size);
    case Then(before, e) =>
      var p :| Reaches(size, before, p) && Next(p, e, s);
      var t :| Step(p, t, e, s);
      RunsAreLinearizable(size, before, p);
      StepInv(p, t, e, s);
      StepRefinesQueue(p, t, e, s);
  }

  ghost function DequeuedValues(run: Trace): seq<Value> {
    match run
    case Start => []
    case Then(before, e) => DequeuedValues(before) + if e.Dequeued? then [e.value] else []
  }

  lemma TakenGrows(s: State, e: Event, s': State)
    requires Next(s, e, s')
    ensures s'.taken == s.taken + if e.Dequeued? then [e.value] else []
  {
    var t :| Step(s, t, e, s');
  }

  lemma {:induction false} DequeuedAreTaken(size: nat, run: Trace, s: State)
    requires Reaches(size, run, s)
    ensures DequeuedValues(run) == s.taken
  {
    if run.Then? {
      var p :| Reaches(size, run.before, p) && Next(p, run.event, s);
      DequeuedAreTaken(size, run.before, p);
      TakenGrows(p, run.event, s);
    }
  }

  /** The k-th successful Dequeue returns the value of the Enqueue that claimed ticket k. */
  lemma KthDequeueTakesTicketK(size: nat, run: Trace, s: State)
    requires Reaches(size, run, s)
    ensures s.head <= |s.claimed| && DequeuedValues(run) == s.taken == s.claimed[..s.head]
  {
    RunsAreLinearizable(size, run, s);
    DequeuedAreTaken(size, run, s);
  }

  // ----- calls and their answers -----

  datatype Call = NoCall | EnqueueCall(value: Value) | DequeueCall

  ghost function CallOf(pc: Pc): Call {
    if pc.Idle? then NoCall
    else if pc.DeqLoadCommit? || pc.DeqReadSlot? || pc.DeqCasHead? then DequeueCall
    else EnqueueCall(pc.value)
  }

  /** A call is answered exactly at the step in which it returns, and whatever retries come before,
      an Enqueue claims and enqueues the value that it was called with. */
  lemma EachCallIsAnsweredOnce(s: State, t: nat, e: Event, s': State)
    requires Step(s, t, e, s')
    ensures e.Internal? ==>
              s'.threads[t] != Idle && (s.threads[t] != Idle ==> CallOf(s'.threads[t]) == CallOf(s.threads[t]))
    ensures !e.Internal? ==> s'.threads[t] == Idle
    ensures e.Enqueued? ==> CallOf(s.threads[t]) == EnqueueCall(e.value)
    ensures e.EnqueueFull? ==> CallOf(s.threads[t]).EnqueueCall?
    ensures e.Dequeued? || e.DequeueEmpty? ==> CallOf(s.threads[t]) == DequeueCall
    ensures s'.claimed == s.claimed
            || (CallOf(s.threads[t]).EnqueueCall? && s'.claimed == s.claimed + [CallOf(s.threads[t]).value])
    ensures forall u | 0 <= u < |s.threads| && u != t :: s'.threads[u] == s.threads[u]
  {
    if s.threads[t].Idle? {
      assert EnqStart(s, t, e, s') || DeqStart(s, t, e, s');
    }
  }

  /** Each attempt of an Enqueue begins with a load of the current tail, and the call is refused if
      and only if the slot behind the loaded tail is that of the head at its load. */
  lemma RefusedIff(s: State, t: nat, e: Event, s': State)
    requires Step(s, t, e, s')
    ensures s'.threads[t].EnqLoadHead? ==> s'.threads[t].oldTail == s.tail
    ensures e.EnqueueFull? <==>
            s.threads[t].EnqLoadHead? && (s.threads[t].oldTail + 1) % s.poolSize == s.head % s.poolSize
    ensures s'.threads[t].EnqCasTail? ==>
              s.threads[t] == EnqLoadHead(s'.threads[t].value, s'.threads[t].oldTail)
  {
    if s.threads[t].EnqLoadHead? {
      var behind := GetIndex(s.threads[t].oldTail + 1, s.poolSize);
      var head := GetIndex(s.head, s.poolSize);
    }
  }

  /** So does each attempt of a Dequeue with one of the current head, and the call finds the queue
      empty if and only if nothing is committed behind the loaded head at its load. */
  lemma EmptyIff(s: State, t: nat, e: Event, s': State)
    requires Step(s, t, e, s')
    ensures s'.threads[t].DeqLoadCommit? ==> s'.threads[t].oldHead == s.head
    ensures e.DequeueEmpty? <==> s.threads[t].DeqLoadCommit? && s.commit == s.threads[t].oldHead + 1
    ensures s'.threads[t].DeqReadSlot? ==> s.threads[t] == DeqLoadCommit(s'.threads[t].oldHead)
  {
    if s.threads[t].DeqLoadCommit? {
      assert DeqCheckEmpty(s, t, e, s');
    }
  }

  // ----- capacity and the full test -----

  /** The modulo comparison in Enqueue is an exact full test when the loaded tail is current. */
  lemma CurrentTailFullTest(s: State)
    requires Inv(s)
    ensures GetIndex(s.tail + 1, s.poolSize) == GetIndex(s.head, s.poolSize) <==> Size(s) == s.poolSize - 2
  {
    if s.tail + 1 == s.head + s.poolSize {
      SlotsMeet(s.head, s.poolSize);
    } else {
      SlotsDiffer(s.head, s.tail + 1, s.poolSize);
    }
  }

  /** With a tail loaded earlier the test may refuse a queue that is not full.  A refusal is
      right exactly when tail has meanwhile moved by a multiple of the pool size. */
  lemma RefusalIsRightIff(s: State, t: nat)
    requires Inv(s) && t < |s.threads| && s.threads[t].EnqLoadHead?
    requires GetIndex(s.threads[t].oldTail + 1, s.poolSize) == GetIndex(s.head, s.poolSize)
    ensures Size(s) == s.poolSize - 2 <==> (s.tail - s.threads[t].oldTail) % s.poolSize == 0
  {
    CurrentTailFullTest(s);
    SameSlotIff(s.threads[t].oldTail + 1, s.tail + 1, s.poolSize);
  }

  /** While some ticket is claimed but not committed, one thread, and only one, is entitled to
      commit next; at most two of its own steps later the commit counter has advanced. */
  lemma CommitNeverStuck(s: State) returns (t: nat)
    requires Inv(s) && s.commit < s.tail
    ensures t < |s.threads| && InFlight(s.threads[t], s.commit)
    ensures forall u :: 0 <= u < |s.threads| && InFlight(s.threads[u], s.commit) ==> u == t
    ensures exists s1, s2, e ::
      && (s1 == s || Step(s, t, Internal, s1))
      && Step(s1, t, e, s2) && e.Enqueued? && s2.commit == s.commit + 1
  {
    assert HasOwner(s, s.commit);
    t :| 0 <= t < |s.threads| && InFlight(s.threads[t], s.commit);
    var v := s.threads[t].value;
    var s1 := if s.threads[t].EnqCasCommit? then s
              else Goto(s, t, EnqCasCommit(v, s.commit)).(pool := s.pool[GetIndex(s.commit, s.poolSize) := v]);
    if s.threads[t].EnqWriteSlot? {
      assert EnqWrite(s, t, Internal, s1);
      assert Step(s, t, Internal, s1);
    }
    var s2 := Goto(s1, t, Idle).(commit := s.commit + 1);
    assert EnqPublish(s1, t, Enqueued(v), s2);
    assert Step(s1, t, Enqueued(v), s2);
  }

  // ----- an early tail load can make Enqueue refuse an empty queue -----

  lemma Extend(size: nat, run: Trace, s: State, t: nat, e: Event, s': State)
    requires Reaches(size, run, s) && Step(s, t, e, s')
    ensures Reaches(size, Then(run, e), s')
  {
    assert Next(s, e, s');
  }

  /** An Enqueue that runs alone on a queue with room and nothing in flight succeeds. */
  lemma EnqueueAloneSteps(s: State, t: nat, v: Value) returns (s1: State, s2: State, s3: State, s4: State, s': State)
    requires Inv(s) && t < |s.threads| && s.threads[t].Idle?
    requires s.commit == s.tail && Size(s) < s.poolSize - 2
    ensures Step(s, t, Internal, s1) && Step(s1, t, Internal, s2) && Step(s2, t, Internal, s3)
    ensures Step(s3, t, Internal, s4) && Step(s4, t, Enqueued(v), s')
    ensures s' == s.(tail := s.tail + 1, commit := s.tail + 1, claimed := s.claimed + [v], pool := s'.pool)
  {
    CurrentTailFullTest(s);
    var k := s.tail;
    s1 := Goto(s, t, EnqLoadHead(v, k));
    assert EnqStart(s, t, Internal, s1);
    s2 := Goto(s1, t, EnqCasTail(v, k));
    assert EnqCheckFull(s1, t, Internal, s2);
    s3 := Goto(s2, t, EnqWriteSlot(v, k)).(tail := k + 1, claimed := s.claimed + [v]);
    assert EnqClaim(s2, t, Internal, s3);
    s4 := Goto(s3, t, EnqCasCommit(v, k)).(pool := s.pool[GetIndex(k, s.poolSize) := v]);
    assert EnqWrite(s3, t, Internal, s4);
    s' := Goto(s4, t, Idle).(commit := k + 1);
    assert s'.threads == s.threads;
    assert EnqPublish(s4, t, Enqueued(v), s');
  }

  /** A Dequeue that runs alone on a non-empty queue takes the oldest committed value. */
  lemma DequeueAloneSteps(s: State, t: nat) returns (s1: State, s2: State, s3: State, s': State)
    requires Inv(s) && t < |s.threads| && s.threads[t].Idle?
    requires s.head + 1 < s.commit
    ensures Step(s, t, Internal, s1) && Step(s1, t, Internal, s2) && Step(s2, t, Internal, s3)
    ensures Step(s3, t, Dequeued(Contents(s)[0]), s')
    ensures s' == s.(head := s.head + 1, taken := s.taken + [Contents(s)[0]])
  {
    var h := s.head;
    var v := s.claimed[h];
    s1 := Goto(s, t, DeqLoadCommit(h));
    assert DeqStart(s, t, Internal, s1);
    s2 := Goto(s1, t, DeqReadSlot(h));
    assert DeqCheckEmpty(s1, t, Internal, s2);
    s3 := Goto(s2, t, DeqCasHead(h, v));
    assert s.pool[GetIndex(h + 1, s.poolSize)] == v;
    assert DeqRead(s2, t, Internal, s3);
    s' := Goto(s3, t, Idle).(head := h + 1, taken := s.taken + [v]);
    assert s'.threads == s.threads;
    assert DeqTake(s3, t, Dequeued(v), s');
  }

  lemma EnqueueOne(size: nat, run: Trace, s: State, t: nat, v: Value) returns (run': Trace, s': State)
    requires Reaches(size, run, s) && t < |s.threads| && s.threads[t].Idle?
    requires Inv(s) && s.commit == s.tail && Size(s) < s.poolSize - 2
    ensures Reaches(size, run', s')
    ensures s' == s.(tail := s.tail + 1, commit := s.tail + 1, claimed := s.claimed + [v], pool := s'.pool)
  {
    var s1, s2, s3, s4, s5 := EnqueueAloneSteps(s, t, v);
    var r1 := Then(run, Internal);
    Extend(size, run, s, t, Internal, s1);
    var r2 := Then(r1, Internal);
    Extend(size, r1, s1, t, Internal, s2);
    var r3 := Then(r2, Internal);
    Extend(size, r2, s2, t, Internal, s3);
    var r4 := Then(r3, Internal);
    Extend(size, r3, s3, t, Internal, s4);
    run', s' := Then(r4, Enqueued(v)), s5;
    Extend(size, r4, s4, t, Enqueued(v), s5);
  }

  /** One element passes through an empty queue while the other threads stand still. */
  lemma PassThrough(size: nat, run: Trace, s: State, t: nat, v: Value) returns (run': Trace, s': State)
    requires size >= 1 && Reaches(size, run, s) && t < |s.threads| && s.threads[t].Idle?
    requires s.commit == s.tail == s.head + 1
    ensures Reaches(size, run', s')
    ensures s' == s.(head := s.head + 1, tail := s.tail + 1, commit := s.tail + 1, claimed := s.claimed + [v],
                     taken := s.taken + [v], pool := s'.pool)
  {
    RunsAreLinearizable(size, run, s);
    var run1, s1 := EnqueueOne(size, run, s, t, v);
    RunsAreLinearizable(size, run1, s1);
    run', s' := TakeOne(size, run1, s1, t);
  }

  lemma TakeOne(size: nat, run: Trace, s: State, t: nat) returns (run': Trace, s': State)
    requires Reaches(size, run, s) && t < |s.threads| && s.threads[t].Idle?
    requires Inv(s) && s.head + 1 < s.commit
    ensures Reaches(size, run', s')
    ensures s' == s.(head := s.head + 1, taken := s.taken + [Contents(s)[0]])
  {
    var v := Contents(s)[0];
    var s1, s2, s3, s4 := DequeueAloneSteps(s, t);
    var r1 := Then(run, Internal);
    Extend(size, run, s, t, Internal, s1);
    var r2 := Then(r1, Internal);
    Extend(size, r1, s1, t, Internal, s2);
    var r3 := Then(r2, Internal);
    Extend(size, r2, s2, t, Internal, s3);
    run', s' := Then(r3, Dequeued(v)), s4;
    Extend(size, r3, s3, t, Dequeued(v), s4);
  }

  /** A queue of any capacity can refuse an Enqueue while it is empty: one thread loads the
      tail, another passes two elements through the queue, and the first thread then compares. */
  lemma EmptyQueueCanRefuse(size: nat, start: State, v: Value)
    requires size >= 1 && Init(start, size) && |start.threads| >= 2
    ensures exists run, s, s' :: Reaches(size, run, s) && Bounds(s) && Contents(s) == [] && Size(s) == 0
                                 && Next(s, EnqueueFull, s')
  {
    var s0 := Goto(start, 0, EnqLoadHead(v, 1));
    assert EnqStart(start, 0, Internal, s0);
    Extend(size, Start, start, 0, Internal, s0);
    var run1, s1 := PassThrough(size, Then(Start, Internal), s0, 1, v);
    var run2, s2 := PassThrough(size, run1, s1, 1, v);
    RunsAreLinearizable(size, run2, s2);
    var s3 := Goto(s2, 0, Idle);
    assert EnqCheckFull(s2, 0, EnqueueFull, s3);
    assert Step(s2, 0, EnqueueFull, s3);
    assert Next(s2, EnqueueFull, s3);
    assert Contents(s2) == [];
  }
}
