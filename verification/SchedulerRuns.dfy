/** What every run of the scheduler keeps: one runner for each coroutine, registration and run queues
    in step, and removed coroutines that stay away. */
module SchedulerRuns {
  import opened Options
  import opened SchedulerClassic

  // ----- runs -----

  /** moves[i] is the thread that takes the step from run[i] to run[i + 1]. */
  ghost predicate IsRun(run: seq<State>, moves: seq<nat>) {
    && |run| == |moves| + 1 && Init(run[0])
    && (forall i {:trigger moves[i]} | 0 <= i < |moves| :: Step(run[i], moves[i], run[i + 1]))
  }

  lemma {:induction false} RunInv(run: seq<State>, moves: seq<nat>, i: nat)
    requires IsRun(run, moves) && i < |run|
    ensures Inv(run[i])
  {
    if i == 0 {
      InitInv(run[0]);
    } else {
      RunInv(run, moves, i - 1);
      StepInv(run[i - 1], moves[i - 1], run[i]);
    }
  }

  /** What the i-th step of a run keeps, whoever took it. */
  lemma RunChange(run: seq<State>, moves: seq<nat>, i: nat) returns (t: nat)
    requires IsRun(run, moves) && i + 1 < |run|
    ensures Inv(run[i]) && Inv(run[i + 1]) && Change(run[i], t, run[i + 1])
  {
    t := moves[i];
    RunInv(run, moves, i);
    StepInv(run[i], t, run[i + 1]);
  }

  ghost predicate Resumes(pc: Pc, cr: nat) {
    (pc.Resuming? || pc.Entering? || pc.Running?) && pc.cr == cr
  }

  /** No coroutine is ever being resumed by two processors. */
  lemma NeverResumedTwice(run: seq<State>, moves: seq<nat>, i: nat, t: nat, u: nat, cr: nat)
    requires IsRun(run, moves) && i < |run| && t < |run[i].threads| && u < |run[i].threads|
    requires Resumes(run[i].threads[t], cr) && Resumes(run[i].threads[u], cr)
    ensures t == u
  {
    RunInv(run, moves, i);
    assert PcInv(run[i], t, run[i].threads[t]) && PcInv(run[i], u, run[i].threads[u]);
  }

  /** A processor never finds the coroutine that NextRoutine gave it in another state than READY. */
  lemma ResumeNeverRefuses(run: seq<State>, moves: seq<nat>, i: nat)
    requires IsRun(run, moves) && i < |moves|
    ensures moves[i] < |run[i].threads| && !Refuse(run[i], moves[i], run[i + 1])
  {
    RunInv(run, moves, i);
    var t := moves[i];
    assert Step(run[i], t, run[i + 1]);
    assert PcInv(run[i], t, run[i].threads[t]);
  }

  // ----- registration and queues -----

  /** Entry `index` of a queue has this id. */
  ghost predicate IsEntry(s: State, place: Place, index: nat, id: nat) {
    index < |Queue(s, place)| && IsRoutine(s, Queue(s, place)[index], id)
  }

  /** An id whose mutex is free is registered if and only if it has a queue entry. */
  lemma RegisteredIffQueued(run: seq<State>, moves: seq<nat>, i: nat, id: nat)
    requires IsRun(run, moves) && i < |run| && id !in run[i].mutexes
    ensures id in run[i].registry <==> exists place, index: nat :: IsEntry(run[i], place, index, id)
  {
    RunInv(run, moves, i);
    var s := run[i];
    assert PlacedInv(s, id) && Lookup(s.registry, id) == Lookup(s.placed, id);
    if id in s.registry {
      var cr := s.placed[id];
      var place := s.routines[cr].place;
      var index: nat :| index < |Queue(s, place)| && Queue(s, place)[index] == cr;
      assert IsEntry(s, place, index, id);
    }
    if place, index: nat :| IsEntry(s, place, index, id) {
      assert QueueInv(s, place) && EntryInv(s, place, Queue(s, place)[index]);
    }
  }

  /** That entry is the registered coroutine, at the group and the priority it has recorded. */
  lemma EntryIsRegistered(run: seq<State>, moves: seq<nat>, i: nat, id: nat, place: Place, index: nat)
    requires IsRun(run, moves) && i < |run| && id !in run[i].mutexes && IsEntry(run[i], place, index, id)
    ensures id in run[i].registry && Queue(run[i], place)[index] == run[i].registry[id]
    ensures run[i].routines[run[i].registry[id]].place == place && place.prio < MAX_PRIO
  {
    RunInv(run, moves, i);
    assert QueueInv(run[i], place) && EntryInv(run[i], place, Queue(run[i], place)[index]);
    assert Lookup(run[i].registry, id) == Lookup(run[i].placed, id);
  }

  /** There is never more than one entry with an id, whoever holds its mutex. */
  lemma OneEntry(run: seq<State>, moves: seq<nat>, i: nat, id: nat, p: Place, j: nat, q: Place, k: nat)
    requires IsRun(run, moves) && i < |run| && IsEntry(run[i], p, j, id) && IsEntry(run[i], q, k, id)
    ensures p == q && j == k
  {
    RunInv(run, moves, i);
    assert QueueInv(run[i], p) && EntryInv(run[i], p, Queue(run[i], p)[j]);
    assert QueueInv(run[i], q) && EntryInv(run[i], q, Queue(run[i], q)[k]);
    assert j < k || j == k || k < j;
  }

  /** A coroutine without configuration is at the priority it was constructed with, or was brought
      from there below MAX_PRIO. */
  ghost predicate AsWished(s: State, cr: nat) {
    cr < |s.routines| && s.routines[cr].name !in s.confs ==>
      s.routines[cr].place.prio == s.routines[cr].wished
      || (s.routines[cr].wished >= MAX_PRIO && s.routines[cr].place.prio == MAX_PRIO - 1)
  }

  lemma StaysAsWished(s: State, t: nat, s': State, cr: nat)
    requires Change(s, t, s') && AsWished(s, cr)
    ensures AsWished(s', cr)
  {
    if cr < |s.routines| {
      assert RoutineKept(s, t, s.routines[cr], s'.routines[cr]);
    }
  }

  lemma {:induction false} AllAsWished(run: seq<State>, moves: seq<nat>, i: nat, cr: nat)
    requires IsRun(run, moves) && i < |run|
    ensures AsWished(run[i], cr)
  {
    if i > 0 {
      AllAsWished(run, moves, i - 1, cr);
      var t := RunChange(run, moves, i - 1);
      StaysAsWished(run[i - 1], t, run[i], cr);
    }
  }

  /** An entry stands where the configuration wants it: in the task's configured group at its
      configured priority, or without configuration in the default group at the priority the coroutine
      was constructed with; a priority from MAX_PRIO on is lowered to the highest one there is. */
  lemma QueuedWhereConfigured(run: seq<State>, moves: seq<nat>, i: nat, id: nat, place: Place, index: nat)
    requires IsRun(run, moves) && i < |run| && IsEntry(run[i], place, index, id)
    ensures var s := run[i];
      var Routine(_, name, wished, _, _, _, _) := s.routines[Queue(s, place)[index]];
      var prio := if name in s.confs then s.confs[name].prio else wished;
      && place.prio < MAX_PRIO
      && place.group == (if name in s.confs then s.confs[name].group else s.defaultGroup)
      && place.prio == if prio < MAX_PRIO then prio else MAX_PRIO - 1
  {
    RunInv(run, moves, i);
    AllAsWished(run, moves, i, Queue(run[i], place)[index]);
    assert QueueInv(run[i], place) && EntryInv(run[i], place, Queue(run[i], place)[index]);
  }

  // ----- the order of a queue -----

  ghost predicate InFront(queue: seq<nat>, a: nat, b: nat) {
    exists i, j :: 0 <= i < j < |queue| && queue[i] == a && queue[j] == b
  }

  /** Entries that stay keep their order, and a new one comes behind them. */
  lemma QueueOrder(queue: seq<nat>, pc: Pc, queue': seq<nat>, a: nat, b: nat)
    requires QueueMoves(queue, pc, queue') && NoRepeat(queue) && a in queue' && b in queue'
    ensures InFront(queue, a, b) ==> InFront(queue', a, b)
    ensures a in queue && b !in queue ==> InFront(queue', a, b)
  {
    if queue' != queue && pc.Enqueueing? {
      if i, j :| 0 <= i < j < |queue| && queue[i] == a && queue[j] == b {
        assert queue'[i] == a && queue'[j] == b;
      }
      if a in queue && b !in queue {
        var i :| 0 <= i < |queue| && queue[i] == a;
        assert queue'[i] == a && queue'[|queue|] == b;
      }
    } else if queue' != queue {
      if i, j :| 0 <= i < j < |queue| && queue[i] == a && queue[j] == b {
        var k := pc.index;
        assert i != k && j != k;
        assert queue'[if i < k then i else i - 1] == a && queue'[if j < k then j else j - 1] == b;
      }
    }
  }

  /** First come, first scanned: as long as two coroutines are in the same queue, the one that was
      put there first stays in front. */
  lemma {:induction false} OrderIsKept(run: seq<State>, moves: seq<nat>, i: nat, j: nat, place: Place, a: nat, b: nat)
    requires IsRun(run, moves) && i < j < |run| && a in Queue(run[i], place)
    requires InFront(Queue(run[i], place), a, b) || b !in Queue(run[i], place)
    requires forall k {:trigger run[k]} | i < k <= j :: a in Queue(run[k], place) && b in Queue(run[k], place)
    ensures InFront(Queue(run[j], place), a, b)
    decreases j
  {
    var t := RunChange(run, moves, j - 1);
    assert QueueInv(run[j - 1], place);
    assert a in Queue(run[j], place) && b in Queue(run[j], place);
    if i < j - 1 {
      OrderIsKept(run, moves, i, j - 1, place, a, b);
    }
    QueueOrder(Queue(run[j - 1], place), run[j - 1].threads[t], Queue(run[j], place), a, b);
  }

  // ----- removal -----

  /** DispatchTask answers true when the coroutine has just been put into its queue, and false only
      when its id was registered as it looked. */
  lemma DispatchAnswers(run: seq<State>, moves: seq<nat>, i: nat)
    requires IsRun(run, moves) && i < |moves|
    ensures moves[i] < |run[i].threads| && |run[i + 1].threads| == |run[i].threads|
    ensures AnswersDispatch(run[i], run[i].threads[moves[i]], run[i + 1], run[i + 1].threads[moves[i]])
  {
    RunInv(run, moves, i);
    StepInv(run[i], moves[i], run[i + 1]);
  }

  /** RemoveCRoutine fails only when the id was not registered as it looked: a registered
      coroutine is always found in its queue. */
  lemma RemovalFailsOnlyIfNotRegistered(run: seq<State>, moves: seq<nat>, i: nat)
    requires IsRun(run, moves) && i < |moves|
    ensures moves[i] < |run[i].threads| && |run[i + 1].threads| == |run[i].threads|
    ensures AnswersRemove(run[i], run[i].threads[moves[i]], run[i + 1].threads[moves[i]])
  {
    RunInv(run, moves, i);
    StepInv(run[i], moves[i], run[i + 1]);
  }

  ghost predicate IsRegistered(s: State, cr: nat) {
    exists id :: id in s.registry && s.registry[id] == cr
  }

  /** The coroutine is in no queue and with no processor. */
  ghost predicate Gone(s: State, cr: nat) {
    && (forall place {:trigger Queue(s, place)} :: cr !in Queue(s, place))
    && (forall t {:trigger s.threads[t]} | 0 <= t < |s.threads| :: !Handles(s.threads[t], cr))
  }

  /** When RemoveCRoutine has erased the entry, the coroutine is gone. */
  lemma ErasedIsGone(s: State, t: nat)
    requires Inv(s) && t < |s.threads| && s.threads[t].Letting?
    ensures Gone(s, s.threads[t].cr)
  {
    assert PcInv(s, t, s.threads[t]);
    var cr := s.threads[t].cr;
    forall place
      ensures cr !in Queue(s, place)
    {
      assert QueueInv(s, place);
      assert cr in Queue(s, place) ==> EntryInv(s, place, cr);
    }
    forall u | 0 <= u < |s.threads|
      ensures !Handles(s.threads[u], cr)
    {
      assert PcInv(s, u, s.threads[u]);
    }
  }

  lemma GoneStaysGone(s: State, t: nat, s': State, cr: nat)
    requires Inv(s) && Change(s, t, s') && Gone(s, cr) && !IsRegistered(s, cr)
    ensures Gone(s', cr)
  {
    var pc := s.threads[t];
    assert PcInv(s, t, pc);
    assert pc.Enqueueing? ==> pc.id in s.registry && s.registry[pc.id] == pc.cr;
    assert pc.Scanning? ==> cr !in Queue(s, Place(pc.group, pc.prio));
    assert !Handles(s'.threads[t], cr);
    forall place
      ensures cr !in Queue(s', place)
    {
      assert cr !in Queue(s, place);
    }
  }

  /** Between states i and j the coroutine is not registered. */
  ghost predicate NotRegistered(run: seq<State>, i: nat, j: nat, cr: nat) {
    i <= j < |run| && forall k {:trigger run[k]} | i <= k < j :: !IsRegistered(run[k], cr)
  }

  /** After a removal has taken the coroutine off its queue, it is not resumed again as long as
      it is not registered again. */
  lemma {:induction false} RemovedNeverResumed(run: seq<State>, moves: seq<nat>, i: nat, j: nat, t: nat, u: nat, cr: nat)
    requires IsRun(run, moves) && i <= j < |run| && t < |run[i].threads| && u < |run[j].threads|
    requires run[i].threads[t].Letting? && run[i].threads[t].cr == cr
    requires NotRegistered(run, i, j, cr)
    ensures Gone(run[j], cr) && !Resumes(run[j].threads[u], cr)
    decreases j
  {
    RunInv(run, moves, i);
    if i == j {
      ErasedIsGone(run[i], t);
    } else {
      var mover := RunChange(run, moves, j - 1);
      RemovedNeverResumed(run, moves, i, j - 1, t, u, cr);
      GoneStaysGone(run[j - 1], mover, run[j], cr);
    }
  }

  lemma StopKept(s: State, t: nat, s': State, cr: nat)
    requires Change(s, t, s') && Stopped(s, cr)
    ensures Stopped(s', cr)
  {
    assert RoutineKept(s, t, s.routines[cr], s'.routines[cr]);
  }

  ghost predicate Stopped(s: State, cr: nat) {
    cr < |s.routines| && s.routines[cr].stopped
  }

  /** The stop flag is never cleared. */
  lemma {:induction false} StoppedStaysStopped(run: seq<State>, moves: seq<nat>, i: nat, j: nat, cr: nat)
    requires IsRun(run, moves) && i <= j < |run|
    requires Stopped(run[i], cr)
    ensures Stopped(run[j], cr)
  {
    if i < j {
      StoppedStaysStopped(run, moves, i, j - 1, cr);
      var t := RunChange(run, moves, j - 1);
      StopKept(run[j - 1], t, run[j], cr);
    }
  }

  ghost predicate IsFinished(s: State, cr: nat) {
    cr < |s.routines| && s.routines[cr].state == FINISHED
  }

  /** A coroutine that Resume has found stopped, and hence finished, is never returned by NextRoutine
      and never resumed again. */
  lemma {:induction false} FinishedNeverResumed(run: seq<State>, moves: seq<nat>, i: nat, j: nat, t: nat, cr: nat)
    requires IsRun(run, moves) && i < j < |run| && Finish(run[i], moves[i], run[i + 1]) && run[i].threads[moves[i]].cr == cr
    requires t < |run[j].threads|
    ensures IsFinished(run[j], cr) && !Resumes(run[j].threads[t], cr)
    ensures run[j].threads[t].Leaving? ==> run[j].threads[t].cr != cr
    decreases j
  {
    if j > i + 1 {
      var u := RunChange(run, moves, j - 1);
      FinishedNeverResumed(run, moves, i, j - 1, t, cr);
      assert RoutineKept(run[j - 1], u, run[j - 1].routines[cr], run[j].routines[cr]);
    }
    RunInv(run, moves, j);
    assert PcInv(run[j], t, run[j].threads[t]);
  }

  // ----- entering the code of a removed coroutine -----

  /** Thread t has found the coroutine not stopped and is about to enter its code. */
  ghost predicate AboutToEnter(s: State, t: nat, cr: nat) {
    t < |s.threads| && s.threads[t].Entering? && s.threads[t].cr == cr
  }

  /** The i-th step of the run enters the coroutine's code. */
  ghost predicate Enters(run: seq<State>, moves: seq<nat>, i: nat, cr: nat)
    requires |run| == |moves| + 1
  {
    i < |moves| && AboutToEnter(run[i], moves[i], cr) && SwapIn(run[i], moves[i], run[i + 1])
  }

  /** While the coroutine is stopped a thread is about to enter it only if it was before. */
  lemma WasAboutToEnter(s: State, t: nat, s': State, u: nat, cr: nat)
    requires Change(s, t, s') && Stopped(s, cr) && AboutToEnter(s', u, cr)
    ensures AboutToEnter(s, u, cr)
  {
    assert u != t ==> s'.threads[u] == s.threads[u];
  }

  /** Hence whoever is about to enter a coroutine that was stopped earlier has been all the time. */
  lemma {:induction false} EarlierAboutToEnter(run: seq<State>, moves: seq<nat>, i: nat, j: nat, u: nat, cr: nat)
    requires IsRun(run, moves) && i <= j < |run| && Stopped(run[i], cr) && AboutToEnter(run[j], u, cr)
    ensures AboutToEnter(run[i], u, cr)
  {
    if i < j {
      StoppedStaysStopped(run, moves, i, j - 1, cr);
      var t := RunChange(run, moves, j - 1);
      WasAboutToEnter(run[j - 1], t, run[j], u, cr);
      EarlierAboutToEnter(run, moves, i, j - 1, u, cr);
    }
  }

  /** From the moment RemoveCRoutine has erased the entry of a coroutine its code is never entered
      again, not even after it was dispatched once more: its stop flag stays set, and no processor
      is behind the look at it. */
  lemma ErasedNeverEntered(run: seq<State>, moves: seq<nat>, i: nat, t: nat, j: nat)
    requires IsRun(run, moves) && i <= j && i < |run| && t < |run[i].threads| && run[i].threads[t].Letting?
    ensures !Enters(run, moves, j, run[i].threads[t].cr)
  {
    var cr := run[i].threads[t].cr;
    RunInv(run, moves, i);
    assert PcInv(run[i], t, run[i].threads[t]);
    ErasedIsGone(run[i], t);
    if Enters(run, moves, j, cr) {
      EarlierAboutToEnter(run, moves, i, j, moves[j], cr);
      assert Handles(run[i].threads[moves[j]], cr);
    }
  }

  /** The step before state i has unregistered the coroutine. */
  ghost predicate HasUnregistered(run: seq<State>, moves: seq<nat>, i: nat, cr: nat)
    requires |run| == |moves| + 1
  {
    && 0 < i < |run| && moves[i - 1] < |run[i - 1].threads|
    && Unregister(run[i - 1], moves[i - 1], run[i])
    && run[i - 1].registry[run[i - 1].threads[moves[i - 1]].id] == cr
  }

  ghost predicate SomeoneAboutToEnter(s: State, cr: nat) {
    exists t: nat :: AboutToEnter(s, t, cr)
  }

  /** The run goes on as it likes and enters the coroutine's code after state i. */
  ghost predicate EntersLater(run: seq<State>, moves: seq<nat>, i: nat, cr: nat,
                              later: seq<State>, laterMoves: seq<nat>, j: nat) {
    && IsRun(later, laterMoves) && run <= later && moves <= laterMoves && i <= j
    && Enters(later, laterMoves, j, cr)
  }

  ghost predicate MayEnterLater(run: seq<State>, moves: seq<nat>, i: nat, cr: nat) {
    exists later, laterMoves, j: nat :: EntersLater(run, moves, i, cr, later, laterMoves, j)
  }

  /** The exact condition: after its unregistration the code of a coroutine can still be entered,
      with or without another dispatch, if and only if at the unregistration a processor had already
      passed the look at the stop flag. */
  lemma EnteredAfterUnregisterIff(run: seq<State>, moves: seq<nat>, cr: nat)
    requires IsRun(run, moves) && HasUnregistered(run, moves, |moves|, cr)
    ensures MayEnterLater(run, moves, |moves|, cr) <==> SomeoneAboutToEnter(run[|moves|], cr)
  {
    var i := |moves|;
    var s := run[i];
    if t: nat :| AboutToEnter(s, t, cr) {
      RunInv(run, moves, i);
      assert PcInv(s, t, s.threads[t]);
      var s' := Goto(s, t, Running(s.threads[t].group, cr));
      assert SwapIn(s, t, s');
      var later, laterMoves := OneMore(run, moves, t, s');
      assert EntersLater(run, moves, i, cr, later, laterMoves, i);
    }
    if later, laterMoves, j: nat :| EntersLater(run, moves, i, cr, later, laterMoves, j) {
      assert later[i] == s;
      EarlierAboutToEnter(later, laterMoves, i, j, laterMoves[j], cr);
    }
  }

  lemma EntersOnlyOnce(run: seq<State>, moves: seq<nat>, i: nat, j: nat, k: nat, cr: nat)
    requires IsRun(run, moves) && i <= j < k && i < |run| && Stopped(run[i], cr) && Enters(run, moves, j, cr)
    ensures !Enters(run, moves, k, cr)
  {
    if Enters(run, moves, k, cr) {
      StoppedStaysStopped(run, moves, i, j + 1, cr);
      EarlierAboutToEnter(run, moves, j + 1, k, moves[k], cr);
      NeverResumedTwice(run, moves, j + 1, moves[j], moves[k], cr);
    }
  }

  /** And at most once, by that processor. */
  lemma EnteredOnceAfterUnregister(run: seq<State>, moves: seq<nat>, i: nat, j: nat, k: nat, cr: nat)
    requires IsRun(run, moves) && HasUnregistered(run, moves, i, cr) && i <= j && i <= k
    requires Enters(run, moves, j, cr) && Enters(run, moves, k, cr)
    ensures j == k && AboutToEnter(run[i], moves[j], cr)
  {
    EarlierAboutToEnter(run, moves, i, j, moves[j], cr);
    if j < k {
      EntersOnlyOnce(run, moves, i, j, k, cr);
    } else if k < j {
      EntersOnlyOnce(run, moves, i, k, j, cr);
    }
  }

  lemma OneMore(run: seq<State>, moves: seq<nat>, t: nat, s': State) returns (run': seq<State>, moves': seq<nat>)
    requires IsRun(run, moves) && Step(run[|moves|], t, s')
    ensures IsRun(run', moves') && run' == run + [s'] && moves' == moves + [t]
  {
    run', moves' := run + [s'], moves + [t];
    forall i {:trigger moves'[i]} | 0 <= i < |moves'|
      ensures Step(run'[i], moves'[i], run'[i + 1])
    {
      if i < |moves| {
        assert run'[i] == run[i] && moves'[i] == moves[i] && run'[i + 1] == run[i + 1];
        assert Step(run[i], moves[i], run[i + 1]);
      } else {
        assert run'[i] == run[|moves|] && moves'[i] == t && run'[i + 1] == s';
      }
    }
  }

  // ----- a run that enters the code of an unregistered coroutine -----

  /** One coroutine, one client and one processor of the only group, each at its point. */
  ghost function Small(r: Routine, client: Pc, processor: Pc): State {
    State(map[], "group", [r], map[7 := 0], map[r.place := [0]], map[7 := 0], map[], map[], {}, [client, processor])
  }

  const FRESH := Routine(7, "task", MAX_PRIO - 1, Place("group", MAX_PRIO - 1), READY, false, None)

  lemma DispatchStarts() returns (run: seq<State>, moves: seq<nat>)
    ensures IsRun(run, moves)
    ensures run[|moves|] == Small(FRESH, Configuring(7, 0), Between("group"))
                            .(mutexes := map[7 := 0], queues := map[], placed := map[])
  {
    var s0 := State(map[], "group", [], map[], map[], map[], map[], map[], {}, [Client, Between("group")]);
    run, moves := [s0], [];
    var s1 := s0.(routines := [FRESH]);
    assert Create(s0, 0, s1);
    run, moves := OneMore(run, moves, 0, s1);
    var s2 := s1.(threads := [DispatchWaits(7, 0), Between("group")]);
    assert Begin(s1, 0, s2);
    run, moves := OneMore(run, moves, 0, s2);
    var s3 := s2.(threads := [Registering(7, 0), Between("group")], mutexes := map[7 := 0]);
    assert LockId(s2, 0, s3);
    run, moves := OneMore(run, moves, 0, s3);
    var s4 := s3.(threads := [Configuring(7, 0), Between("group")], registry := map[7 := 0]);
    assert Register(s3, 0, s4);
    run, moves := OneMore(run, moves, 0, s4);
  }

  lemma DispatchEnds() returns (run: seq<State>, moves: seq<nat>)
    ensures IsRun(run, moves) && run[|moves|] == Small(FRESH, Client, Between("group"))
  {
    run, moves := DispatchStarts();
    var s4 := run[|moves|];
    var s5 := s4.(threads := [Enqueueing(7, 0), Between("group")]);
    assert Configured(s4, FRESH) == FRESH.place;
    assert Configure(s4, 0, s5);
    run, moves := OneMore(run, moves, 0, s5);
    var s6 := s5.(threads := [DispatchReturns(7, 0, true), Between("group")],
                  queues := map[FRESH.place := [0]], placed := map[7 := 0]);
    assert Queue(s5, FRESH.place) + [0] == [0];
    assert Enqueue(s5, 0, s6);
    run, moves := OneMore(run, moves, 0, s6);
    var s7 := s6.(threads := [Client, Between("group")], mutexes := map[]);
    assert s6.mutexes - {7} == map[];
    assert Return(s6, 0, s7);
    run, moves := OneMore(run, moves, 0, s7);
  }

  const TAKEN := FRESH.(owner := Some(1))

  lemma TakeOnly() returns (run: seq<State>, moves: seq<nat>)
    ensures IsRun(run, moves)
    ensures run[|moves|] == Small(TAKEN, Client, Updating("group", MAX_PRIO - 1, 0, 0)).(readers := {(FRESH.place, 1)})
  {
    run, moves := DispatchEnds();
    var s7 := run[|moves|];
    var s8 := Small(FRESH, Client, EnteringQueue("group", MAX_PRIO - 1));
    assert StartScan(s7, 1, s8);
    run, moves := OneMore(run, moves, 1, s8);
    var s9 := Small(FRESH, Client, Scanning("group", MAX_PRIO - 1, 0)).(readers := {(FRESH.place, 1)});
    assert EnterQueue(s8, 1, s9);
    run, moves := OneMore(run, moves, 1, s9);
    var s10 := Small(TAKEN, Client, Updating("group", MAX_PRIO - 1, 0, 0)).(readers := {(FRESH.place, 1)});
    assert Take(s9, 1, s10);
    run, moves := OneMore(run, moves, 1, s10);
  }

  /** The processor takes the coroutine and passes the look at its stop flag. */
  lemma TakeAndPass() returns (run: seq<State>, moves: seq<nat>)
    ensures IsRun(run, moves) && run[|moves|] == Small(TAKEN, Client, Entering("group", 0))
  {
    run, moves := TakeOnly();
    var s10 := run[|moves|];
    var s11 := Small(TAKEN, Client, Leaving("group", MAX_PRIO - 1, 0)).(readers := {(FRESH.place, 1)});
    assert Choose(s10, 1, s11);
    run, moves := OneMore(run, moves, 1, s11);
    var s12 := Small(TAKEN, Client, Resuming("group", 0));
    assert Leave(s11, 1, s12);
    run, moves := OneMore(run, moves, 1, s12);
    var s13 := Small(TAKEN, Client, Entering("group", 0));
    assert PassStop(s12, 1, s13);
    run, moves := OneMore(run, moves, 1, s13);
  }

  /** The condition can hold: here the code of a coroutine is entered after its unregistration. */
  lemma EnteredAfterUnregister() returns (run: seq<State>, moves: seq<nat>, cr: nat)
    ensures IsRun(run, moves) && |moves| > 0
    ensures HasUnregistered(run, moves, |moves| - 1, cr) && Enters(run, moves, |moves| - 1, cr)
  {
    run, moves := TakeAndPass();
    cr := 0;
    var s13 := run[|moves|];
    var s14 := Small(TAKEN, RemoveWaits(7), Entering("group", 0));
    assert Begin(s13, 0, s14);
    run, moves := OneMore(run, moves, 0, s14);
    var s15 := Small(TAKEN, Unregistering(7), Entering("group", 0)).(mutexes := map[7 := 0]);
    assert LockId(s14, 0, s15);
    run, moves := OneMore(run, moves, 0, s15);
    var s16 := Small(TAKEN.(stopped := true), WantsQueue(7, 0, TAKEN.place), Entering("group", 0))
               .(mutexes := map[7 := 0], registry := map[]);
    assert Unregister(s15, 0, s16);
    run, moves := OneMore(run, moves, 0, s16);
    var s17 := Goto(s16, 1, Running("group", 0));
    assert SwapIn(s16, 1, s17);
    run, moves := OneMore(run, moves, 1, s17);
  }
}
