/** The lock-free object pool of cyber/base/concurrent_object_pool.h.

    Free nodes form a linked list through their `next` fields.  Its head is one word of three
    fields that is compared and swapped as a whole: an update count, the number of objects given
    out, and the first node.  Any number of threads pop and push; loads, `next` accesses and
    compare-and-swaps are single steps; the weak compare-and-swaps may fail spuriously.  The
    update count is unbounded here. */
module ObjectPool {
  import opened Options

  datatype Head = Head(count: nat, net: int, node: Option<nat>)

  /** Where a thread stands inside FindFreeHead or ReleaseObject. */
  datatype Pc =
    | Idle
    | PopReadNext(seen: Head)
    | PopCas(seen: Head, successor: Option<nat>)
    | PushWriteNext(node: nat, seen: Head)
    | PushCas(node: nat, seen: Head)

  /** `free` records the nodes of the free list from its head on, `held` the nodes whose objects
      are given out and not yet being released. */
  datatype State = State(capacity: nat, head: Head, next: seq<Option<nat>>, threads: seq<Pc>,
                         free: seq<nat>, held: set<nat>)

  datatype Event = Internal | Obtained(node: nat) | NoObject | Releasing(node: nat) | Released(node: nat)

  // ----- the constructor -----

  ghost predicate Chained(next: seq<Option<nat>>, nodes: seq<nat>) {
    forall i {:trigger nodes[i]} | 0 <= i < |nodes| ::
      nodes[i] < |next| && next[nodes[i]] == ElementAt(nodes, i + 1)
  }

  ghost function UpTo(n: nat): seq<nat> {
    seq(n, i requires 0 <= i < n => i)
  }

  /** The constructor links all nodes in the order of the arena. */
  method LinkArena(capacity: nat) returns (next: array<Option<nat>>)
    requires capacity >= 1
    ensures fresh(next) && next.Length == capacity && Chained(next[..], UpTo(capacity))
  {
    next := new Option<nat>[capacity];
    for i := 0 to capacity - 1
      invariant forall k | 0 <= k < i :: next[k] == Some(k + 1)
    {
      next[i] := Some(i + 1);
    }
    next[capacity - 1] := None;
  }

  ghost predicate Init(s: State) {
    && s.capacity >= 1 && |s.next| == s.capacity && Chained(s.next, UpTo(s.capacity))
    && s.head == Head(0, 0, Some(0)) && s.free == UpTo(s.capacity) && s.held == {}
    && (forall t | 0 <= t < |s.threads| :: s.threads[t] == Idle)
  }

  // ----- the steps -----

  ghost function Goto(s: State, t: nat, pc: Pc): State
    requires t < |s.threads|
  {
    s.(threads := s.threads[t := pc])
  }

  ghost function Rest(nodes: seq<nat>): seq<nat> {
    if nodes == [] then [] else nodes[1..]
  }

  /** A pop that has just loaded the head gives up on an empty list. */
  ghost predicate PopLoaded(s: State, t: nat, e: Event, s': State)
    requires t < |s.threads|
  {
    if s.head.node.None? then e == NoObject && s' == Goto(s, t, Idle)
    else e == Internal && s' == Goto(s, t, PopReadNext(s.head))
  }

  ghost predicate PopStart(s: State, t: nat, e: Event, s': State)
    requires t < |s.threads|
  {
    s.threads[t].Idle? && PopLoaded(s, t, e, s')
  }

  ghost predicate PopRead(s: State, t: nat, e: Event, s': State)
    requires t < |s.threads|
  {
    && s.threads[t].PopReadNext? && e == Internal
    && var seen := s.threads[t].seen;
    && seen.node.Some?
    && s' == Goto(s, t, PopCas(seen, if seen.node.value < |s.next| then s.next[seen.node.value] else None))
  }

  ghost predicate PopSwap(s: State, t: nat, e: Event, s': State)
    requires t < |s.threads|
  {
    && s.threads[t].PopCas?
    && var PopCas(seen, successor) := s.threads[t];
    || (s.head == seen && seen.node.Some? && e == Obtained(seen.node.value)
        && s' == Goto(s, t, Idle).(head := Head(seen.count + 1, seen.net + 1, successor),
                                   free := Rest(s.free), held := s.held + {seen.node.value}))
    || PopLoaded(s, t, e, s')
  }

  /** The deleter of a given-out pointer starts ReleaseObject. */
  ghost predicate PushStart(s: State, t: nat, e: Event, s': State)
    requires t < |s.threads|
  {
    && s.threads[t].Idle? && e.Releasing? && e.node in s.held
    && s' == Goto(s, t, PushWriteNext(e.node, s.head)).(held := s.held - {e.node})
  }

  ghost predicate PushWrite(s: State, t: nat, e: Event, s': State)
    requires t < |s.threads|
  {
    && s.threads[t].PushWriteNext? && e == Internal
    && var PushWriteNext(node, seen) := s.threads[t];
    s' == Goto(s, t, PushCas(node, seen)).(next := if node < |s.next| then s.next[node := seen.node] else s.next)
  }

  ghost predicate PushSwap(s: State, t: nat, e: Event, s': State)
    requires t < |s.threads|
  {
    && s.threads[t].PushCas?
    && var PushCas(node, seen) := s.threads[t];
    || (s.head == seen && e == Released(node)
        && s' == Goto(s, t, Idle).(head := Head(seen.count + 1, seen.net - 1, Some(node)),
                                   free := [node] + s.free))
    || (e == Internal && s' == Goto(s, t, PushWriteNext(node, s.head)))
  }

  ghost predicate Step(s: State, t: nat, e: Event, s': State) {
    && t < |s.threads|
    && (|| PopStart(s, t, e, s') || PopRead(s, t, e, s') || PopSwap(s, t, e, s')
        || PushStart(s, t, e, s') || PushWrite(s, t, e, s') || PushSwap(s, t, e, s'))
  }

  // ----- the invariant -----

  ghost predicate NoDuplicates(s: seq<nat>) {
    forall i, j | 0 <= i < j < |s| :: s[i] != s[j]
  }

  /** The head and the `next` fields spell out `free`, and `net` counts what is missing from it. */
  ghost predicate ListInv(s: State) {
    && |s.next| == s.capacity && NoDuplicates(s.free) && Chained(s.next, s.free)
    && s.head.node == ElementAt(s.free, 0)
    && s.head.net == s.capacity - |s.free|
  }

  /** Thread t is putting the node back. */
  ghost predicate Pushing(s: State, t: int, node: nat) {
    && 0 <= t < |s.threads| && (s.threads[t].PushWriteNext? || s.threads[t].PushCas?)
    && s.threads[t].node == node
  }

  ghost predicate BeingPushed(s: State, node: nat) {
    exists t :: Pushing(s, t, node)
  }

  /** Every node is in exactly one place: on the free list, given out, or in one ReleaseObject. */
  ghost predicate OnePlace(s: State, node: nat) {
    && (node in s.free ==> node !in s.held && !BeingPushed(s, node))
    && (node in s.held ==> !BeingPushed(s, node))
    && (node < s.capacity <==> node in s.free || node in s.held || BeingPushed(s, node))
    && (forall t, u | Pushing(s, t, node) && Pushing(s, u, node) :: t == u)
  }

  /** A remembered head that still has the current count is the current head. */
  ghost predicate Current(s: State, seen: Head) {
    seen.count <= s.head.count && (seen.count == s.head.count ==> seen == s.head)
  }

  ghost predicate PcInv(s: State, pc: Pc) {
    match pc
    case Idle => true
    case PopReadNext(seen) => Current(s, seen) && seen.node.Some? && seen.node.value < s.capacity
    case PopCas(seen, successor) =>
      && Current(s, seen) && seen.node.Some?
      && (seen.count == s.head.count ==> successor == ElementAt(s.free, 1))
    case PushWriteNext(_, seen) => Current(s, seen)
    case PushCas(node, seen) => Current(s, seen) && node < |s.next| && s.next[node] == seen.node
  }

  ghost predicate Inv(s: State) {
    && ListInv(s)
    && (forall node: nat :: OnePlace(s, node))
    && (forall t | 0 <= t < |s.threads| :: PcInv(s, s.threads[t]))
  }

  lemma InitInv(s: State)
    requires Init(s)
    ensures Inv(s)
  {
    forall node: nat
      ensures OnePlace(s, node)
    {
      if node < s.capacity {
        assert s.free[node] == node;
      }
    }
  }

  /** When no thread takes up or finishes a push, the nodes being pushed stay the same. */
  lemma SamePushes(s: State, t: nat, s': State)
    requires t < |s.threads| && |s'.threads| == |s.threads| && s'.threads == s.threads[t := s'.threads[t]]
    requires forall node :: Pushing(s', t, node) <==> Pushing(s, t, node)
    ensures forall u, node :: Pushing(s', u, node) <==> Pushing(s, u, node)
    ensures forall node :: BeingPushed(s', node) <==> BeingPushed(s, node)
  {
    forall u, node: nat
      ensures Pushing(s', u, node) <==> Pushing(s, u, node)
    {
    }
    forall node: nat
      ensures BeingPushed(s', node) <==> BeingPushed(s, node)
    {
      if BeingPushed(s, node) {
        var u :| Pushing(s, u, node);
        assert Pushing(s', u, node);
      }
      if BeingPushed(s', node) {
        var u :| Pushing(s', u, node);
        assert Pushing(s, u, node);
      }
    }
  }

  lemma QuietStepInv(s: State, t: nat, e: Event, s': State)
    requires Inv(s) && t < |s.threads|
    requires PopStart(s, t, e, s') || PopRead(s, t, e, s')
             || ((PopSwap(s, t, e, s') || PushSwap(s, t, e, s')) && s'.head == s.head)
    ensures Inv(s')
  {
    SamePushes(s, t, s');
    forall node: nat
      ensures OnePlace(s', node)
    {
      assert OnePlace(s, node);
    }
    assert s.free != [] ==> s.free[0] < s.capacity;
  }

  lemma PopInv(s: State, t: nat, e: Event, s': State)
    requires Inv(s) && t < |s.threads| && PopSwap(s, t, e, s') && s'.head != s.head
    ensures Inv(s')
  {
    SamePushes(s, t, s');
    var node := s.free[0];
    assert s.free == [node] + s.free[1..];
    forall k: nat
      ensures OnePlace(s', k)
    {
      assert OnePlace(s, k);
    }
    assert forall i | 0 <= i < |s'.free| :: s'.free[i] == s.free[i + 1];
  }

  lemma PushStartInv(s: State, t: nat, e: Event, s': State)
    requires Inv(s) && t < |s.threads| && PushStart(s, t, e, s')
    ensures Inv(s')
  {
    forall node: nat
      ensures OnePlace(s', node)
    {
      assert OnePlace(s, node) && OnePlace(s, e.node);
      assert forall u | u != t :: Pushing(s', u, node) <==> Pushing(s, u, node);
      assert Pushing(s', t, e.node);
      assert !Pushing(s, t, node);
      if BeingPushed(s, node) {
        var u :| Pushing(s, u, node);
        assert Pushing(s', u, node);
      }
    }
  }

  lemma PushWriteInv(s: State, t: nat, e: Event, s': State)
    requires Inv(s) && t < |s.threads| && PushWrite(s, t, e, s')
    ensures Inv(s')
  {
    SamePushes(s, t, s');
    var node := s.threads[t].node;
    assert Pushing(s, t, node) && OnePlace(s, node);
    forall k: nat
      ensures OnePlace(s', k)
    {
      assert OnePlace(s, k);
    }
    forall u | 0 <= u < |s'.threads|
      ensures PcInv(s', s'.threads[u])
    {
      if u != t && s.threads[u].PushCas? {
        assert Pushing(s, u, s.threads[u].node);
      }
    }
  }

  lemma PushInv(s: State, t: nat, e: Event, s': State)
    requires Inv(s) && t < |s.threads| && PushSwap(s, t, e, s') && s'.head != s.head
    ensures Inv(s')
  {
    var node := s.threads[t].node;
    assert Pushing(s, t, node) && OnePlace(s, node);
    forall k: nat
      ensures OnePlace(s', k)
    {
      assert OnePlace(s, k);
      assert forall u | u != t :: Pushing(s', u, k) <==> Pushing(s, u, k);
      assert !Pushing(s', t, k);
      if k != node && BeingPushed(s, k) {
        var u :| Pushing(s, u, k);
        assert Pushing(s', u, k);
      }
    }
    PushedList(s, node);
  }

  lemma PushedList(s: State, node: nat)
    requires ListInv(s) && node !in s.free && node < |s.next| && s.next[node] == s.head.node
    ensures NoDuplicates([node] + s.free) && Chained(s.next, [node] + s.free)
  {
    var free' := [node] + s.free;
    assert forall i | 0 < i < |free'| :: free'[i] == s.free[i - 1];
    forall i | 0 <= i < |free'|
      ensures free'[i] < |s.next| && s.next[free'[i]] == ElementAt(free', i + 1)
    {
      if i > 0 {
        assert free'[i] == s.free[i - 1];
      }
    }
  }

  /** Every step of every thread keeps the invariant. */
  lemma StepInv(s: State, t: nat, e: Event, s': State)
    requires Inv(s) && Step(s, t, e, s')
    ensures Inv(s')
  {
    if PushStart(s, t, e, s') {
      PushStartInv(s, t, e, s');
    } else if PushWrite(s, t, e, s') {
      PushWriteInv(s, t, e, s');
    } else if s.threads[t].PopCas? && s'.head != s.head {
      PopInv(s, t, e, s');
    } else if s.threads[t].PushCas? && s'.head != s.head {
      PushInv(s, t, e, s');
    } else {
      QuietStepInv(s, t, e, s');
    }
  }

  /** Every step is one of an abstract stack of free objects: obtaining pops its top, a release
      pushes, and a pop that reports no object does so while the stack is empty. */
  lemma StepRefinesStack(s: State, t: nat, e: Event, s': State)
    requires Inv(s) && Step(s, t, e, s')
    ensures match e
            case Internal => s'.free == s.free && s'.held == s.held
            case Obtained(n) => s.free == [n] + s'.free && n !in s.held && s'.held == s.held + {n}
            case NoObject => s.free == [] && s'.free == s.free && s'.held == s.held
            case Releasing(n) => s'.free == s.free && n in s.held && s'.held == s.held - {n}
            case Released(n) => n !in s.free && s'.free == [n] + s.free && s'.held == s.held
  {
    if e.Obtained? {
      assert OnePlace(s, e.node);
      assert s.free[0] == e.node;
    } else if e.Released? {
      assert Pushing(s, t, e.node) && OnePlace(s, e.node);
    }
  }

  // ----- runs -----

  ghost predicate Next(s: State, s': State) {
    exists t: nat, e: Event :: Step(s, t, e, s')
  }

  ghost predicate IsRun(run: seq<State>) {
    run != [] && Init(run[0]) && forall i {:trigger Next(run[i - 1], run[i])} | 0 < i < |run| :: Next(run[i - 1], run[i])
  }

  lemma {:induction false} RunInv(run: seq<State>, i: nat)
    requires IsRun(run) && i < |run|
    ensures Inv(run[i])
  {
    if i == 0 {
      InitInv(run[0]);
    } else {
      RunInv(run, i - 1);
      assert Next(run[i - 1], run[i]);
      var t: nat, e :| Step(run[i - 1], t, e, run[i]);
      StepInv(run[i - 1], t, e, run[i]);
    }
  }

  /** In every state of every run each node is in exactly one place and the free list is
      acyclic, ends, and misses exactly size() = net nodes. */
  lemma EveryNodeOnce(run: seq<State>, i: nat, node: nat)
    requires IsRun(run) && i < |run|
    ensures OnePlace(run[i], node)
    ensures NoDuplicates(run[i].free) && Chained(run[i].next, run[i].free)
    ensures run[i].head.node == ElementAt(run[i].free, 0)
    ensures run[i].head.net == run[i].capacity - |run[i].free|
  {
    RunInv(run, i);
  }

  /** The update count defeats ABA: whenever the swap of a pop succeeds, the successor that it
      read before is still the second node of the list, and the count grows. */
  lemma PopInstallsTrueSuccessor(run: seq<State>, i: nat, t: nat, e: Event, s': State)
    requires IsRun(run) && i < |run| && Step(run[i], t, e, s') && e.Obtained?
    ensures |run[i].free| >= 1 && s'.head.node == ElementAt(run[i].free, 1)
    ensures s'.head.count == run[i].head.count + 1
  {
    RunInv(run, i);
  }

  // ----- calls and their answers -----

  datatype Call = NoCall | Obtain | Release(node: nat)

  ghost function CallOf(pc: Pc): Call {
    match pc
    case Idle => NoCall
    case PushWriteNext(node, _) => Release(node)
    case PushCas(node, _) => Release(node)
    case _ => Obtain
  }

  /** A call goes on until it is answered, and a ReleaseObject puts back the node it was called with,
      however often it has to try. */
  lemma EachCallIsAnsweredOnce(s: State, t: nat, e: Event, s': State)
    requires Step(s, t, e, s')
    ensures s.threads[t] != Idle && e.Internal? ==> CallOf(s'.threads[t]) == CallOf(s.threads[t])
    ensures e.Releasing? ==> s.threads[t] == Idle && CallOf(s'.threads[t]) == Release(e.node)
    ensures e.Released? ==> CallOf(s.threads[t]) == Release(e.node) && s'.threads[t] == Idle
    ensures e.Obtained? || e.NoObject? ==>
              (s.threads[t] == Idle || CallOf(s.threads[t]) == Obtain) && s'.threads[t] == Idle
    ensures forall u | 0 <= u < |s.threads| && u != t :: s'.threads[u] == s.threads[u]
  {
  }

  /** Every attempt works on the head as it stood when the attempt began, and only an attempt that
      began with an empty list reports that there is no object. */
  lemma EachAttemptSeesTheHead(s: State, t: nat, e: Event, s': State)
    requires Step(s, t, e, s')
    ensures s'.threads[t].PopReadNext? || s'.threads[t].PushWriteNext? ==> s'.threads[t].seen == s.head == s'.head
    ensures s'.threads[t].PopCas? || s'.threads[t].PushCas? ==>
              s.threads[t] != Idle && s'.threads[t].seen == s.threads[t].seen
    ensures e.NoObject? ==> s.head.node.None? && s' == Goto(s, t, Idle)
    ensures s'.threads[t].PopReadNext? ==> s.head.node.Some?
    ensures s' == s ==> e.NoObject? && s.threads[t] == Idle
  {
  }

  /** Undisturbed, a pop gets the first free node... */
  lemma PopAlone(s: State, t: nat) returns (s1: State, s2: State, s': State)
    requires Inv(s) && t < |s.threads| && s.threads[t].Idle? && s.free != []
    ensures Step(s, t, Internal, s1) && Step(s1, t, Internal, s2) && Step(s2, t, Obtained(s.free[0]), s')
  {
    var node := s.free[0];
    s1 := Goto(s, t, PopReadNext(s.head));
    assert PopStart(s, t, Internal, s1);
    s2 := Goto(s1, t, PopCas(s.head, s.next[node]));
    assert PopRead(s1, t, Internal, s2);
    s' := Goto(s2, t, Idle).(head := Head(s.head.count + 1, s.head.net + 1, s.next[node]),
                             free := Rest(s.free), held := s.held + {node});
    assert PopSwap(s2, t, Obtained(node), s');
  }

  /** ...and a release puts its node in front of the list. */
  lemma PushAlone(s: State, t: nat, node: nat) returns (s1: State, s2: State, s': State)
    requires Inv(s) && t < |s.threads| && s.threads[t].Idle? && node in s.held
    ensures Step(s, t, Releasing(node), s1) && Step(s1, t, Internal, s2) && Step(s2, t, Released(node), s')
    ensures s'.free == [node] + s.free
  {
    s1 := Goto(s, t, PushWriteNext(node, s.head)).(held := s.held - {node});
    assert PushStart(s, t, Releasing(node), s1);
    s2 := Goto(s1, t, PushCas(node, s.head)).(next := if node < |s.next| then s.next[node := s.head.node] else s.next);
    assert PushWrite(s1, t, Internal, s2);
    s' := Goto(s2, t, Idle).(head := Head(s.head.count + 1, s.head.net - 1, Some(node)), free := [node] + s.free);
    assert PushSwap(s2, t, Released(node), s');
  }
}
