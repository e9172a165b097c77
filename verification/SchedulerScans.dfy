/** What NextRoutine looks at and what it returns. */
module SchedulerScans {
  import opened Options
  import opened SchedulerClassic
  import opened SchedulerRuns

  // ----- a scan as part of a run -----

  /** The processor is inside NextRoutine and has not found a coroutine. */
  ghost predicate InScan(pc: Pc) {
    pc.EnteringQueue? || pc.Scanning? || pc.Updating? || pc.Passing?
  }

  /** From the step behind state i to state j thread t scans the queues of the group. */
  ghost predicate Scans(run: seq<State>, moves: seq<nat>, t: nat, i: nat, j: nat, group: string) {
    && IsRun(run, moves) && i < j < |run| && t < |run[i].threads| && run[i].threads[t] == Between(group)
    && (forall k {:trigger run[k]} | i < k <= j :: t < |run[k].threads| && InScan(run[k].threads[t]))
  }

  /** Where the scan stands: in the group's queue of the thread's priority. */
  ghost predicate StandsIn(s: State, t: nat, group: string, prio: int) {
    t < |s.threads| && InScan(s.threads[t]) && s.threads[t].group == group && s.threads[t].prio == prio
  }

  /** The processor stands at the end of the queue. */
  ghost predicate AtEnd(s: State, t: nat, group: string, prio: int) {
    prio >= 0 && StandsIn(s, t, group, prio) && s.threads[t].Scanning? && s.threads[t].index >= |Queue(s, Place(group, prio))|
  }

  /** A thread's own step from pc to pc' in state s, as far as it is part of a scan: the scan enters
      the next queue; at an entry it goes on if the coroutine is taken, or tries it; a coroutine that
      it tries is passed if it is not READY. */
  ghost predicate Advances(s: State, pc: Pc, pc': Pc) {
    match pc
    case Between(group) => pc' == EnteringQueue(group, MAX_PRIO - 1)
    case EnteringQueue(group, prio) => pc' == Scanning(group, prio, 0)
    case Scanning(group, prio, index) =>
      (match ElementAt(Queue(s, Place(group, prio)), index)
       case None => pc' == if prio > 0 then EnteringQueue(group, prio - 1) else Between(group)
       case Some(cr) =>
         && cr < |s.routines|
         && pc' == if s.routines[cr].owner.Some? then Scanning(group, prio, index + 1)
                   else Updating(group, prio, index, cr))
    case Updating(group, prio, index, cr) =>
      && cr < |s.routines|
      && ((s.routines[cr].state != READY && pc' == Passing(group, prio, index, cr))
          || (s.routines[cr].state != FINISHED && pc' == Leaving(group, prio, cr)))
    case Passing(group, prio, index, _) => pc' == Scanning(group, prio, index + 1)
    case _ => true
  }

  lemma ClientsDoNotScan(s: State, t: nat, s': State)
    requires ClientStep(s, t, s')
    ensures !InScan(s.threads[t]) && !s.threads[t].Between?
  {
  }

  lemma EntersAdvance(s: State, t: nat, s': State)
    requires ProcessorStep(s, t, s') && (s.threads[t].Between? || s.threads[t].EnteringQueue? || s.threads[t].Passing?)
    ensures t < |s'.threads| && Advances(s, s.threads[t], s'.threads[t])
  {
  }

  lemma ScanningSteps(s: State, t: nat, s': State)
    requires ProcessorStep(s, t, s') && s.threads[t].Scanning?
    ensures Take(s, t, s') || Skip(s, t, s') || EndScan(s, t, s')
  {
  }

  lemma ScanningAdvances(s: State, t: nat, s': State)
    requires t < |s.threads| && (Take(s, t, s') || Skip(s, t, s') || EndScan(s, t, s'))
    ensures t < |s'.threads| && Advances(s, s.threads[t], s'.threads[t])
  {
  }

  lemma UpdatingSteps(s: State, t: nat, s': State)
    requires ProcessorStep(s, t, s') && s.threads[t].Updating?
    ensures Choose(s, t, s') || Pass(s, t, s')
  {
  }

  lemma UpdatingAdvances(s: State, t: nat, s': State)
    requires t < |s.threads| && (Choose(s, t, s') || Pass(s, t, s'))
    ensures t < |s'.threads| && Advances(s, s.threads[t], s'.threads[t])
  {
  }

  lemma StepAdvances(s: State, t: nat, s': State)
    requires Step(s, t, s') && (InScan(s.threads[t]) || s.threads[t].Between?)
    ensures ProcessorStep(s, t, s') && t < |s'.threads| && Advances(s, s.threads[t], s'.threads[t])
  {
    if ClientStep(s, t, s') {
      ClientsDoNotScan(s, t, s');
    } else {
      match s.threads[t]
      case Scanning(_, _, _) =>
        ScanningSteps(s, t, s');
        ScanningAdvances(s, t, s');
      case Updating(_, _, _, _) =>
        UpdatingSteps(s, t, s');
        UpdatingAdvances(s, t, s');
      case _ => EntersAdvance(s, t, s');
    }
  }

  /** Between two states of a run the thread stays where it is or takes a step of its own. */
  lemma RunAdvances(run: seq<State>, moves: seq<nat>, t: nat, k: nat)
    requires IsRun(run, moves) && k + 1 < |run| && t < |run[k].threads|
    requires InScan(run[k].threads[t]) || run[k].threads[t].Between?
    ensures Inv(run[k]) && PcInv(run[k], t, run[k].threads[t]) && t < |run[k + 1].threads|
    ensures if moves[k] == t then Advances(run[k], run[k].threads[t], run[k + 1].threads[t])
            else run[k + 1].threads[t] == run[k].threads[t]
  {
    RunInv(run, moves, k);
    assert PcInv(run[k], t, run[k].threads[t]);
    StepInv(run[k], moves[k], run[k + 1]);
    if moves[k] == t {
      StepAdvances(run[k], t, run[k + 1]);
    }
  }

  /** A step of this thread or of another. */
  lemma StaysOrAdvances(run: seq<State>, moves: seq<nat>, t: nat, k: nat)
    requires IsRun(run, moves) && k + 1 < |run| && t < |run[k].threads|
    requires InScan(run[k].threads[t]) || run[k].threads[t].Between?
    ensures t < |run[k + 1].threads|
    ensures var pc, pc' := run[k].threads[t], run[k + 1].threads[t]; pc' == pc || Advances(run[k], pc, pc')
  {
    RunAdvances(run, moves, t, k);
  }

  // ----- every queue is scanned, from the highest priority down -----

  /** ks are the states in which the scan stood at the end of the first queues, one after the other. */
  ghost predicate Ends(run: seq<State>, t: nat, i: nat, j: nat, group: string, ks: seq<nat>) {
    && |ks| <= MAX_PRIO
    && (forall d {:trigger ks[d]} | 0 <= d < |ks| ::
          i < ks[d] < j && j <= |run| && AtEnd(run[ks[d]], t, group, MAX_PRIO - 1 - d))
    && (forall d, e {:trigger ks[d], ks[e]} | 0 <= d < e < |ks| :: ks[d] < ks[e])
  }

  lemma MoreEnds(run: seq<State>, t: nat, i: nat, j: nat, group: string, ks: seq<nat>)
    requires Ends(run, t, i, j, group, ks) && i < j < |run| && |ks| < MAX_PRIO
    requires AtEnd(run[j], t, group, MAX_PRIO - 1 - |ks|)
    ensures Ends(run, t, i, j + 1, group, ks + [j])
  {
  }

  lemma LaterEnds(run: seq<State>, t: nat, i: nat, j: nat, group: string, ks: seq<nat>)
    requires Ends(run, t, i, j, group, ks) && j < |run|
    ensures Ends(run, t, i, j + 1, group, ks)
  {
  }

  lemma {:induction false} ScannedSoFar(run: seq<State>, moves: seq<nat>, t: nat, i: nat, j: nat, group: string)
    returns (ks: seq<nat>)
    requires Scans(run, moves, t, i, j, group)
    ensures StandsIn(run[j], t, group, run[j].threads[t].prio) && |ks| == MAX_PRIO - 1 - run[j].threads[t].prio
    ensures Ends(run, t, i, j, group, ks)
    decreases j
  {
    ks := [];
    assert InScan(run[j].threads[t]);
    StaysOrAdvances(run, moves, t, j - 1);
    if j > i + 1 {
      ks := ScannedSoFar(run, moves, t, i, j - 1, group);
      if run[j].threads[t].prio == run[j - 1].threads[t].prio {
        LaterEnds(run, t, i, j - 1, group, ks);
      } else {
        MoreEnds(run, t, i, j - 1, group, ks);
        ks := ks + [j - 1];
      }
    }
  }

  /** A NextRoutine that returns nothing has stood at the end of every queue of the group, from the
      highest priority down to the lowest. */
  lemma ScansEveryQueue(run: seq<State>, moves: seq<nat>, t: nat, i: nat, j: nat, group: string)
    returns (ks: seq<nat>)
    requires Scans(run, moves, t, i, j, group) && j + 1 < |run|
    requires t < |run[j + 1].threads| && run[j + 1].threads[t].Between?
    ensures |ks| == MAX_PRIO && Ends(run, t, i, j + 1, group, ks)
  {
    ks := ScannedSoFar(run, moves, t, i, j, group);
    RunAdvances(run, moves, t, j);
    MoreEnds(run, t, i, j, group, ks);
    ks := ks + [j];
  }

  // ----- every entry of a queue is looked at -----

  /** Entry `index` of the queue is not for this processor now: it is taken, or not READY. */
  ghost predicate Rejects(s: State, t: nat, group: string, prio: nat, index: nat, cr: nat) {
    && StandsIn(s, t, group, prio) && cr < |s.routines|
    && var pc := s.threads[t];
    || (pc.Scanning? && pc.index == index && s.routines[cr].owner.Some?)
    || (pc.Updating? && pc.index == index && pc.cr == cr && s.routines[cr].state != READY)
  }

  ghost predicate WasRejected(run: seq<State>, t: nat, i: nat, j: nat, group: string, prio: nat, index: nat, cr: nat) {
    exists k {:trigger run[k]} :: i < k < j <= |run| && Rejects(run[k], t, group, prio, index, cr)
  }

  /** How many entries of its queue the processor has dealt with. */
  ghost function Done(pc: Pc): nat {
    match pc
    case Scanning(_, _, index) => index
    case Updating(_, _, index, _) => index
    case Passing(_, _, index, _) => index + 1
    case _ => 0
  }

  ghost predicate PassedEntry(run: seq<State>, t: nat, i: nat, j: nat, group: string, prio: nat, queue: seq<nat>, index: nat) {
    index < |queue| && WasRejected(run, t, i, j, group, prio, index, queue[index])
  }

  /** In state j the first entries of the queue were rejected since state i; the one that is tried is
      the one at its index. */
  ghost predicate Passed(run: seq<State>, t: nat, i: nat, j: nat, group: string, prio: nat) {
    && j < |run| && StandsIn(run[j], t, group, prio)
    && var pc := run[j].threads[t];
    && var queue := Queue(run[j], Place(group, prio));
    && (forall index: nat {:trigger PassedEntry(run, t, i, j, group, prio, queue, index)} | index < Done(pc) ::
          PassedEntry(run, t, i, j, group, prio, queue, index))
    && (pc.Updating? || pc.Passing? ==> ElementAt(queue, pc.index) == Some(pc.cr))
  }

  lemma StillPassed(run: seq<State>, t: nat, i: nat, j: nat, group: string, prio: nat, queue: seq<nat>, index: nat)
    requires PassedEntry(run, t, i, j, group, prio, queue, index) && j < |run|
    ensures PassedEntry(run, t, i, j + 1, group, prio, queue, index)
  {
    var k :| i < k < j <= |run| && Rejects(run[k], t, group, prio, index, queue[index]);
    assert Rejects(run[k], t, group, prio, index, queue[index]);
  }

  /** What one step adds: the queue is still the same, and perhaps an entry has been rejected. */
  lemma PassedMore(run: seq<State>, t: nat, i: nat, j: nat, group: string, prio: nat)
    requires i < j && j + 1 < |run| && Passed(run, t, i, j, group, prio)
    requires StandsIn(run[j + 1], t, group, prio)
    requires !run[j].threads[t].EnteringQueue? ==>
               Queue(run[j + 1], Place(group, prio)) == Queue(run[j], Place(group, prio))
    requires run[j + 1].threads[t] == run[j].threads[t] || Advances(run[j], run[j].threads[t], run[j + 1].threads[t])
    ensures Passed(run, t, i, j + 1, group, prio)
  {
    var pc, pc' := run[j].threads[t], run[j + 1].threads[t];
    var queue := Queue(run[j + 1], Place(group, prio));
    var next := j + 1;
    forall index: nat | index < Done(pc')
      ensures PassedEntry(run, t, i, next, group, prio, queue, index)
    {
      if index < Done(pc) {
        StillPassed(run, t, i, j, group, prio, queue, index);
      } else {
        assert Rejects(run[j], t, group, prio, index, queue[index]);
      }
    }
  }

  lemma RunKeepsQueue(run: seq<State>, moves: seq<nat>, t: nat, k: nat)
    requires IsRun(run, moves) && k + 1 < |run| && t < |run[k].threads|
    requires InScan(run[k].threads[t]) && !run[k].threads[t].EnteringQueue?
    ensures var place := Place(run[k].threads[t].group, run[k].threads[t].prio);
      Queue(run[k + 1], place) == Queue(run[k], place)
  {
    var u := RunChange(run, moves, k);
    assert PcInv(run[k], t, run[k].threads[t]);
  }

  /** Every entry that the scan has behind it in its queue was taken or not READY as it looked. */
  lemma {:induction false} PassedSoFar(run: seq<State>, moves: seq<nat>, t: nat, i: nat, j: nat, group: string, prio: nat)
    requires Scans(run, moves, t, i, j, group) && StandsIn(run[j], t, group, prio)
    ensures Passed(run, t, i, j, group, prio)
    decreases j
  {
    if !run[j].threads[t].EnteringQueue? {
      LaterThanFirst(run, moves, t, i, j, group);
      ScanBefore(run, moves, t, i, j, group);
      StaysOrAdvances(run, moves, t, j - 1);
      SamePrioBefore(run[j - 1], run[j - 1].threads[t], run[j].threads[t]);
      PassedSoFar(run, moves, t, i, j - 1, group, prio);
      if !run[j - 1].threads[t].EnteringQueue? {
        RunKeepsQueue(run, moves, t, j - 1);
      }
      PassedMore(run, t, i, j - 1, group, prio);
    }
  }

  lemma FirstEnters(run: seq<State>, moves: seq<nat>, t: nat, i: nat, group: string)
    requires Scans(run, moves, t, i, i + 1, group)
    ensures run[i + 1].threads[t].EnteringQueue?
  {
    assert InScan(run[i + 1].threads[t]);
    RunAdvances(run, moves, t, i);
  }

  lemma ScanBefore(run: seq<State>, moves: seq<nat>, t: nat, i: nat, j: nat, group: string)
    requires Scans(run, moves, t, i, j, group) && j > i + 1
    ensures Scans(run, moves, t, i, j - 1, group) && t < |run[j - 1].threads| && InScan(run[j - 1].threads[t])
    ensures StandsIn(run[j - 1], t, group, run[j - 1].threads[t].prio)
  {
    assert InScan(run[j - 1].threads[t]);
    var ks := ScannedSoFar(run, moves, t, i, j - 1, group);
  }

  lemma SamePrioBefore(s: State, pc: Pc, pc': Pc)
    requires InScan(pc) && InScan(pc') && !pc'.EnteringQueue? && (pc' == pc || Advances(s, pc, pc'))
    ensures pc'.prio == pc.prio
  {
  }

  lemma LaterThanFirst(run: seq<State>, moves: seq<nat>, t: nat, i: nat, j: nat, group: string)
    requires Scans(run, moves, t, i, j, group) && !run[j].threads[t].EnteringQueue?
    ensures j > i + 1
  {
    if j == i + 1 {
      FirstEnters(run, moves, t, i, group);
    }
  }

  /** A NextRoutine that returns nothing has stood at the end of each queue of its group when it had
      found every entry of that queue taken or not READY. */
  lemma NothingReturned(run: seq<State>, moves: seq<nat>, t: nat, i: nat, j: nat, group: string, prio: nat)
    returns (k: nat)
    requires Scans(run, moves, t, i, j, group) && j + 1 < |run| && prio < MAX_PRIO
    requires t < |run[j + 1].threads| && run[j + 1].threads[t].Between?
    ensures i < k <= j && AtEnd(run[k], t, group, prio)
    ensures var queue := Queue(run[k], Place(group, prio));
      forall index: nat {:trigger PassedEntry(run, t, i, k, group, prio, queue, index)} | index < |queue| ::
        PassedEntry(run, t, i, k, group, prio, queue, index)
  {
    var ks := ScansEveryQueue(run, moves, t, i, j, group);
    k := ks[MAX_PRIO - 1 - prio];
    assert AtEnd(run[k], t, group, prio);
    PassedSoFar(run, moves, t, i, k, group, prio);
  }

  // ----- a scan that nobody disturbs -----

  /** From state i to state j only thread t moves. */
  ghost predicate Alone(moves: seq<nat>, t: nat, i: nat, j: nat) {
    i <= j <= |moves| && forall k {:trigger moves[k]} | i <= k < j :: moves[k] == t
  }

  /** What a scan does to the coroutines: it sets and clears the lock flag of the one it tries. */
  ghost predicate ScanEffect(s: State, t: nat, pc: Pc, s': State, pc': Pc) {
    && s'.queues == s.queues
    && (if pc'.Updating? && !pc.Updating? then
          pc'.cr < |s.routines| && s'.routines == s.routines[pc'.cr := s.routines[pc'.cr].(owner := Some(t))]
        else if pc.Passing? && !pc'.Passing? then
          pc.cr < |s.routines| && s'.routines == s.routines[pc.cr := s.routines[pc.cr].(owner := None)]
        else s'.routines == s.routines)
  }

  lemma EnterSteps(s: State, t: nat, s': State)
    requires ProcessorStep(s, t, s') && (s.threads[t].Between? || s.threads[t].EnteringQueue? || s.threads[t].Passing?)
    ensures StartScan(s, t, s') || EnterQueue(s, t, s') || PassOn(s, t, s')
  {
  }

  lemma EnterEffect(s: State, t: nat, s': State)
    requires t < |s.threads| && (StartScan(s, t, s') || EnterQueue(s, t, s'))
    ensures t < |s'.threads| && ScanEffect(s, t, s.threads[t], s', s'.threads[t])
  {
  }

  lemma PassOnEffect(s: State, t: nat, s': State)
    requires t < |s.threads| && PassOn(s, t, s')
    ensures t < |s'.threads| && ScanEffect(s, t, s.threads[t], s', s'.threads[t])
  {
  }

  lemma ScanningEffect(s: State, t: nat, s': State)
    requires t < |s.threads| && (Skip(s, t, s') || EndScan(s, t, s'))
    ensures t < |s'.threads| && ScanEffect(s, t, s.threads[t], s', s'.threads[t])
  {
  }

  lemma TakeEffect(s: State, t: nat, s': State)
    requires t < |s.threads| && Take(s, t, s')
    ensures t < |s'.threads| && ScanEffect(s, t, s.threads[t], s', s'.threads[t])
  {
  }

  lemma UpdatingEffect(s: State, t: nat, s': State)
    requires t < |s.threads| && (Choose(s, t, s') || Pass(s, t, s'))
    ensures t < |s'.threads| && (s'.threads[t].Passing? ==> ScanEffect(s, t, s.threads[t], s', s'.threads[t]))
  {
  }

  ghost predicate StepEffect(s: State, t: nat, s': State) {
    && t < |s.threads| && t < |s'.threads|
    && (InScan(s'.threads[t]) ==> ScanEffect(s, t, s.threads[t], s', s'.threads[t]))
  }

  lemma EffectOfStep(s: State, t: nat, s': State)
    requires ProcessorStep(s, t, s') && (InScan(s.threads[t]) || s.threads[t].Between?)
    ensures StepEffect(s, t, s')
  {
    if s.threads[t].Scanning? {
      EffectOfScanning(s, t, s');
    } else if s.threads[t].Updating? {
      EffectOfUpdating(s, t, s');
    } else {
      EffectOfEntering(s, t, s');
    }
  }

  lemma EffectOfScanning(s: State, t: nat, s': State)
    requires ProcessorStep(s, t, s') && s.threads[t].Scanning?
    ensures StepEffect(s, t, s')
  {
    ScanningSteps(s, t, s');
    if Take(s, t, s') {
      TakeEffect(s, t, s');
    } else {
      ScanningEffect(s, t, s');
    }
  }

  lemma EffectOfUpdating(s: State, t: nat, s': State)
    requires ProcessorStep(s, t, s') && s.threads[t].Updating?
    ensures StepEffect(s, t, s')
  {
    UpdatingSteps(s, t, s');
    UpdatingEffect(s, t, s');
  }

  lemma EffectOfEntering(s: State, t: nat, s': State)
    requires ProcessorStep(s, t, s') && (s.threads[t].Between? || s.threads[t].EnteringQueue? || s.threads[t].Passing?)
    ensures StepEffect(s, t, s')
  {
    EnterSteps(s, t, s');
    if PassOn(s, t, s') {
      PassOnEffect(s, t, s');
    } else {
      EnterEffect(s, t, s');
    }
  }

  /** The coroutines are as they were in the state before, but for the flag of the one being tried. */
  ghost predicate AsBefore(before: State, s: State, t: nat, pc: Pc) {
    && s.queues == before.queues
    && (if pc.Updating? || pc.Passing? then
          && pc.cr < |before.routines| && before.routines[pc.cr].owner == None
          && s.routines == before.routines[pc.cr := before.routines[pc.cr].(owner := Some(t))]
        else s.routines == before.routines)
  }

  lemma StaysAsBefore(before: State, s: State, t: nat, pc: Pc, s': State, pc': Pc)
    requires AsBefore(before, s, t, pc) && (InScan(pc) || pc.Between?) && InScan(pc')
    requires Advances(s, pc, pc') && ScanEffect(s, t, pc, s', pc')
    ensures AsBefore(before, s', t, pc')
  {
    if pc.Passing? {
      assert s'.routines == before.routines;
    }
  }

  lemma {:induction false} ScanAsBefore(run: seq<State>, moves: seq<nat>, t: nat, i: nat, j: nat, group: string)
    requires Scans(run, moves, t, i, j, group) && Alone(moves, t, i, j)
    ensures t < |run[j].threads| && AsBefore(run[i], run[j], t, run[j].threads[t])
    decreases j
  {
    assert InScan(run[j].threads[t]);
    var k := j - 1;
    RunAdvances(run, moves, t, k);
    assert moves[k] == t && Step(run[k], t, run[k + 1]);
    if k > i {
      ScanBefore(run, moves, t, i, j, group);
      ScanAsBefore(run, moves, t, i, k, group);
    }
    StepAdvances(run[k], t, run[j]);
    EffectOfStep(run[k], t, run[j]);
    StaysAsBefore(run[i], run[k], t, run[k].threads[t], run[j], run[j].threads[t]);
  }

  /** The coroutine cannot be returned: it is taken or not READY. */
  ghost predicate Unavailable(s: State, cr: nat) {
    cr < |s.routines| && (s.routines[cr].owner.Some? || s.routines[cr].state != READY)
  }

  ghost predicate NoneAvailable(s: State, queue: seq<nat>) {
    forall index {:trigger queue[index]} | 0 <= index < |queue| :: Unavailable(s, queue[index])
  }

  /** What an undisturbed scan has behind it in its queue was not available from the start. */
  lemma PassedWasUnavailable(run: seq<State>, moves: seq<nat>, t: nat, i: nat, j: nat, group: string, prio: nat)
    requires Scans(run, moves, t, i, j, group) && Alone(moves, t, i, j) && StandsIn(run[j], t, group, prio)
    ensures var queue := Queue(run[i], Place(group, prio));
      Done(run[j].threads[t]) <= |queue| && NoneAvailable(run[i], queue[..Done(run[j].threads[t])])
  {
    var n := Done(run[j].threads[t]);
    var queue := Queue(run[i], Place(group, prio));
    PassedSoFar(run, moves, t, i, j, group, prio);
    ScanAsBefore(run, moves, t, i, j, group);
    assert Queue(run[j], Place(group, prio)) == queue;
    assert n > 0 ==> PassedEntry(run, t, i, j, group, prio, queue, n - 1);
    forall index: nat | index < n
      ensures Unavailable(run[i], queue[index])
    {
      assert PassedEntry(run, t, i, j, group, prio, queue, index);
      var k :| i < k < j <= |run| && Rejects(run[k], t, group, prio, index, queue[index]);
      ScanPrefix(run, moves, t, i, k, j, group);
      ScanAsBefore(run, moves, t, i, k, group);
    }
  }

  lemma ScanPrefix(run: seq<State>, moves: seq<nat>, t: nat, i: nat, k: nat, j: nat, group: string)
    requires Scans(run, moves, t, i, j, group) && Alone(moves, t, i, j) && i < k <= j
    ensures Scans(run, moves, t, i, k, group) && Alone(moves, t, i, k)
  {
  }

  /** The same for each queue that the scan has left. */
  lemma LeftWasUnavailable(run: seq<State>, moves: seq<nat>, t: nat, i: nat, j: nat, group: string,
                           ks: seq<nat>, prio: nat)
    requires Scans(run, moves, t, i, j, group) && Alone(moves, t, i, j)
    requires Ends(run, t, i, j + 1, group, ks) && MAX_PRIO - |ks| <= prio < MAX_PRIO
    ensures NoneAvailable(run[i], Queue(run[i], Place(group, prio)))
  {
    var k := ks[MAX_PRIO - 1 - prio];
    assert AtEnd(run[k], t, group, prio);
    ScanPrefix(run, moves, t, i, k, j, group);
    PassedWasUnavailable(run, moves, t, i, k, group, prio);
    ScanAsBefore(run, moves, t, i, k, group);
    var queue := Queue(run[i], Place(group, prio));
    assert queue[..|queue|] == queue;
  }

  /** Entry `index` of the queue is the first one available in the group. */
  ghost predicate FirstAvailable(s: State, group: string, prio: nat, index: nat) {
    && prio < MAX_PRIO && index < |Queue(s, Place(group, prio))|
    && NoneAvailable(s, Queue(s, Place(group, prio))[..index])
    && forall q: nat {:trigger Place(group, q)} | prio < q < MAX_PRIO :: NoneAvailable(s, Queue(s, Place(group, q)))
  }

  /** An undisturbed NextRoutine returns a coroutine that nobody had taken and that was not finished,
      and no entry before it, in its queue or in one of higher priority, was READY and free. */
  lemma ReturnsTheFirst(run: seq<State>, moves: seq<nat>, t: nat, i: nat, j: nat, group: string) returns (index: nat)
    requires Scans(run, moves, t, i, j, group) && Alone(moves, t, i, j + 1) && j + 1 < |run|
    requires t < |run[j + 1].threads| && run[j + 1].threads[t].Leaving?
    ensures var Leaving(g, prio, cr) := run[j + 1].threads[t];
      && g == group && FirstAvailable(run[i], group, prio, index) && Queue(run[i], Place(group, prio))[index] == cr
      && cr < |run[i].routines| && run[i].routines[cr].owner == None && run[i].routines[cr].state != FINISHED
  {
    RunAdvances(run, moves, t, j);
    assert moves[j] == t;
    var Updating(g, prio, x, cr) := run[j].threads[t];
    var ks := ScannedSoFar(run, moves, t, i, j, group);
    index := x;
    PassedSoFar(run, moves, t, i, j, group, prio);
    PassedWasUnavailable(run, moves, t, i, j, group, prio);
    ScanAsBefore(run, moves, t, i, j, group);
    forall q: nat | prio < q < MAX_PRIO
      ensures NoneAvailable(run[i], Queue(run[i], Place(group, q)))
    {
      LaterEnds(run, t, i, j, group, ks);
      LeftWasUnavailable(run, moves, t, i, j, group, ks, q);
    }
  }

  /** It returns nothing only if no queue of its group had an entry that was READY and free. */
  lemma ReturnsNothingOnlyIf(run: seq<State>, moves: seq<nat>, t: nat, i: nat, j: nat, group: string, prio: nat)
    requires Scans(run, moves, t, i, j, group) && Alone(moves, t, i, j + 1) && j + 1 < |run|
    requires t < |run[j + 1].threads| && run[j + 1].threads[t].Between? && prio < MAX_PRIO
    ensures NoneAvailable(run[i], Queue(run[i], Place(group, prio)))
  {
    var ks := ScansEveryQueue(run, moves, t, i, j, group);
    LeftWasUnavailable(run, moves, t, i, j, group, ks, prio);
  }

  // ----- an undisturbed scan comes to its end -----

  /** No queue of the group is locked by a writer. */
  ghost predicate NoWriters(s: State, group: string) {
    forall prio: nat {:trigger Place(group, prio)} :: Place(group, prio) !in s.writers
  }

  /** What is still to do, as three numbers of falling weight. */
  ghost function PrioOf(pc: Pc): nat {
    if InScan(pc) then pc.prio else 0
  }

  ghost function EntriesLeft(s: State, pc: Pc): nat {
    if InScan(pc) && Done(pc) < |Queue(s, Place(pc.group, pc.prio))|
    then |Queue(s, Place(pc.group, pc.prio))| - Done(pc) else 0
  }

  ghost function Rank(pc: Pc): nat {
    if pc.EnteringQueue? || pc.Passing? then 2 else if pc.Scanning? then 1 else 0
  }

  ghost predicate Smaller(s: State, pc: Pc, s': State, pc': Pc) {
    || PrioOf(pc') < PrioOf(pc)
    || (PrioOf(pc') == PrioOf(pc)
        && (EntriesLeft(s', pc') < EntriesLeft(s, pc)
            || (EntriesLeft(s', pc') == EntriesLeft(s, pc) && Rank(pc') < Rank(pc))))
  }

  /** The next step of the scan; of a coroutine that waits it takes it that no event has come. */
  ghost function ScanNext(s: State, t: nat): State
    requires t < |s.threads| && InScan(s.threads[t])
  {
    match s.threads[t]
    case EnteringQueue(group, prio) =>
      Goto(s, t, Scanning(group, prio, 0)).(readers := s.readers + {(Place(group, prio), t)})
    case Scanning(group, prio, index) =>
      var queue := Queue(s, Place(group, prio));
      if index >= |queue| then
        Goto(s, t, if prio > 0 then EnteringQueue(group, prio - 1) else Between(group))
        .(readers := s.readers - {(Place(group, prio), t)})
      else if queue[index] < |s.routines| && s.routines[queue[index]].owner == None then
        SetRoutine(Goto(s, t, Updating(group, prio, index, queue[index])), queue[index],
                   s.routines[queue[index]].(owner := Some(t)))
      else Goto(s, t, Scanning(group, prio, index + 1))
    case Updating(group, prio, index, cr) =>
      if cr < |s.routines| && s.routines[cr].state == READY then
        SetRoutine(Goto(s, t, Leaving(group, prio, cr)), cr, s.routines[cr].(state := READY))
      else Goto(s, t, Passing(group, prio, index, cr))
    case Passing(group, prio, index, cr) =>
      if cr < |s.routines| then
        SetRoutine(Goto(s, t, Scanning(group, prio, index + 1)), cr, s.routines[cr].(owner := None))
      else s
  }

  /** The scan has come closer to its end, or to it. */
  ghost predicate ComesCloser(s: State, t: nat, s': State) {
    && t < |s.threads| && t < |s'.threads|
    && (if InScan(s.threads[t]) && InScan(s'.threads[t])
        then s'.threads[t].group == s.threads[t].group && Smaller(s, s.threads[t], s', s'.threads[t])
        else s'.threads[t].Between? || s'.threads[t].Leaving?)
  }

  lemma EndSmaller(s: State, t: nat)
    requires t < |s.threads| && s.threads[t].Scanning?
    requires s.threads[t].index >= |Queue(s, Place(s.threads[t].group, s.threads[t].prio))|
    ensures ComesCloser(s, t, ScanNext(s, t))
  {
  }

  lemma EntrySmaller(s: State, t: nat)
    requires t < |s.threads| && s.threads[t].Scanning?
    requires s.threads[t].index < |Queue(s, Place(s.threads[t].group, s.threads[t].prio))|
    ensures ComesCloser(s, t, ScanNext(s, t))
  {
  }

  lemma UpdatingSmaller(s: State, t: nat)
    requires t < |s.threads| && s.threads[t].Updating?
    requires var pc := s.threads[t]; ElementAt(Queue(s, Place(pc.group, pc.prio)), pc.index) == Some(pc.cr)
    ensures ComesCloser(s, t, ScanNext(s, t))
  {
  }

  lemma EnteringSmaller(s: State, t: nat)
    requires t < |s.threads| && (s.threads[t].EnteringQueue? || s.threads[t].Passing?)
    requires s.threads[t].Passing? ==> s.threads[t].cr < |s.routines|
    ensures ComesCloser(s, t, ScanNext(s, t))
  {
  }

  lemma ScanNextSmaller(s: State, t: nat)
    requires t < |s.threads| && InScan(s.threads[t])
    requires var pc := s.threads[t];
      pc.Updating? ==> ElementAt(Queue(s, Place(pc.group, pc.prio)), pc.index) == Some(pc.cr)
    requires s.threads[t].Passing? ==> s.threads[t].cr < |s.routines|
    ensures ComesCloser(s, t, ScanNext(s, t))
  {
    match s.threads[t]
    case Scanning(group, prio, index) =>
      if index < |Queue(s, Place(group, prio))| {
        EntrySmaller(s, t);
      } else {
        EndSmaller(s, t);
      }
    case Updating(_, _, _, _) => UpdatingSmaller(s, t);
    case _ => EnteringSmaller(s, t);
  }

  lemma ScanNextEnters(s: State, t: nat)
    requires t < |s.threads| && (s.threads[t].EnteringQueue? || s.threads[t].Passing?)
    requires NoWriters(s, s.threads[t].group)
    requires s.threads[t].Passing? ==> s.threads[t].cr < |s.routines|
    ensures Step(s, t, ScanNext(s, t)) && ScanNext(s, t).writers == s.writers
  {
    if s.threads[t].Passing? {
      assert PassOn(s, t, ScanNext(s, t));
    } else {
      assert EnterQueue(s, t, ScanNext(s, t));
    }
  }

  lemma ScanNextTries(s: State, t: nat)
    requires Inv(s) && t < |s.threads| && s.threads[t].Scanning? && s.threads[t].prio < MAX_PRIO
    ensures Step(s, t, ScanNext(s, t)) && ScanNext(s, t).writers == s.writers
  {
    var Scanning(group, prio, index) := s.threads[t];
    var queue, s' := Queue(s, Place(group, prio)), ScanNext(s, t);
    assert QueueInv(s, Place(group, prio));
    if index >= |queue| {
      assert EndScan(s, t, s');
    } else {
      assert EntryInv(s, Place(group, prio), queue[index]);
      assert Take(s, t, s') || Skip(s, t, s');
    }
  }

  lemma ScanNextUpdates(s: State, t: nat)
    requires t < |s.threads| && s.threads[t].Updating? && s.threads[t].cr < |s.routines|
    ensures Step(s, t, ScanNext(s, t)) && ScanNext(s, t).writers == s.writers
  {
    assert Choose(s, t, ScanNext(s, t)) || Pass(s, t, ScanNext(s, t));
  }

  lemma ScanNextSteps(s: State, t: nat)
    requires Inv(s) && t < |s.threads| && InScan(s.threads[t]) && NoWriters(s, s.threads[t].group)
    ensures Step(s, t, ScanNext(s, t)) && NoWriters(ScanNext(s, t), s.threads[t].group)
  {
    assert PcInv(s, t, s.threads[t]);
    match s.threads[t]
    case Scanning(_, _, _) => ScanNextTries(s, t);
    case Updating(_, _, _, _) => ScanNextUpdates(s, t);
    case _ => ScanNextEnters(s, t);
  }

  /** Thread t alone brings its scan to an end: it returns a coroutine or nothing. */
  lemma {:induction false} ScanEnds(run: seq<State>, moves: seq<nat>, t: nat, i: nat, group: string)
    returns (run': seq<State>, moves': seq<nat>)
    requires Scans(run, moves, t, i, |moves|, group) && Alone(moves, t, i, |moves|) && NoWriters(run[|moves|], group)
    ensures IsRun(run', moves') && run <= run' && moves < moves' && Alone(moves', t, i, |moves'|)
    ensures Scans(run', moves', t, i, |moves'| - 1, group) && t < |run'[|moves'|].threads|
    ensures run'[|moves'|].threads[t].Between? || run'[|moves'|].threads[t].Leaving?
    decreases PrioOf(run[|moves|].threads[t]), EntriesLeft(run[|moves|], run[|moves|].threads[t]),
              Rank(run[|moves|].threads[t])
  {
    run', moves' := ScanGoesOn(run, moves, t, i, group);
    if InScan(run'[|moves'|].threads[t]) {
      run', moves' := ScanEnds(run', moves', t, i, group);
    }
  }

  lemma ScanGoesOn(run: seq<State>, moves: seq<nat>, t: nat, i: nat, group: string)
    returns (run': seq<State>, moves': seq<nat>)
    requires Scans(run, moves, t, i, |moves|, group) && Alone(moves, t, i, |moves|) && NoWriters(run[|moves|], group)
    ensures IsRun(run', moves') && run <= run' && |moves'| == |moves| + 1 && moves <= moves'
    ensures Alone(moves', t, i, |moves'|) && Scans(run', moves', t, i, |moves|, group)
    ensures NoWriters(run'[|moves'|], group) && t < |run'[|moves'|].threads|
    ensures var s, s' := run[|moves|], run'[|moves'|];
      if InScan(s'.threads[t])
      then Scans(run', moves', t, i, |moves'|, group) && Smaller(s, s.threads[t], s', s'.threads[t])
      else s'.threads[t].Between? || s'.threads[t].Leaving?
  {
    var s := run[|moves|];
    var ks := ScannedSoFar(run, moves, t, i, |moves|, group);
    PassedSoFar(run, moves, t, i, |moves|, group, s.threads[t].prio);
    RunInv(run, moves, |moves|);
    assert PcInv(s, t, s.threads[t]);
    ScanNextSteps(s, t);
    ScanNextSmaller(s, t);
    run', moves' := OneMore(run, moves, t, ScanNext(s, t));
  }

  /** Whenever a processor stands outside of NextRoutine and no writer is in a queue of its group, it
      can run through NextRoutine alone. */
  lemma ScanCanRun(run: seq<State>, moves: seq<nat>, t: nat, group: string)
    returns (run': seq<State>, moves': seq<nat>)
    requires IsRun(run, moves) && t < |run[|moves|].threads| && run[|moves|].threads[t] == Between(group)
    requires NoWriters(run[|moves|], group)
    ensures IsRun(run', moves') && run <= run' && moves < moves' && Alone(moves', t, |moves|, |moves'|)
    ensures |moves'| > |moves| + 1 && Scans(run', moves', t, |moves|, |moves'| - 1, group)
    ensures t < |run'[|moves'|].threads|
    ensures run'[|moves'|].threads[t].Between? || run'[|moves'|].threads[t].Leaving?
  {
    var s := run[|moves|];
    var s' := Goto(s, t, EnteringQueue(group, MAX_PRIO - 1));
    assert StartScan(s, t, s');
    run', moves' := OneMore(run, moves, t, s');
    run', moves' := ScanEnds(run', moves', t, |moves|, group);
  }
}
