/** No lock is forgotten: whatever the scheduler's threads hold is what they hold at their point of
    the code. */
module SchedulerLocks {
  import opened Options
  import opened SchedulerClassic
  import opened SchedulerRuns

  /** The coroutine flags that a thread holds at a point of the code, and so on for the other locks. */
  ghost predicate HoldsFlag(pc: Pc, cr: nat) {
    && (pc.Updating? || pc.Passing? || pc.Leaving? || pc.Resuming? || pc.Entering? || pc.Running? || pc.Releasing?
        || pc.Erasing? || pc.Letting?)
    && pc.cr == cr
  }

  ghost predicate HoldsMutex(pc: Pc, id: nat) {
    && (pc.Registering? || pc.Configuring? || pc.Enqueueing? || pc.DispatchReturns? || pc.Unregistering?
        || pc.WantsQueue? || pc.Searching? || pc.Acquiring? || pc.Erasing? || pc.Letting? || pc.Unlocking?
        || pc.RemoveReturns?)
    && pc.id == id
  }

  ghost predicate Writes(pc: Pc, place: Place) {
    (pc.Searching? || pc.Acquiring? || pc.Erasing? || pc.Letting? || pc.Unlocking?) && pc.place == place
  }

  ghost predicate Reads(pc: Pc, place: Place) {
    (pc.Scanning? || pc.Updating? || pc.Passing? || pc.Leaving?) && Place(pc.group, pc.prio) == place
  }

  /** The thread holds no other locks than those of its point. */
  ghost predicate HoldsNoMore(s: State, t: nat, pc: Pc) {
    && (forall cr {:trigger s.routines[cr]} | 0 <= cr < |s.routines| && s.routines[cr].owner == Some(t) ::
          HoldsFlag(pc, cr))
    && (forall id: nat {:trigger id in s.mutexes} | id in s.mutexes && s.mutexes[id] == t :: HoldsMutex(pc, id))
    && (forall place {:trigger place in s.writers} | place in s.writers && s.writers[place] == t :: Writes(pc, place))
    && (forall place {:trigger (place, t) in s.readers} | (place, t) in s.readers :: Reads(pc, place))
  }

  // ----- a thread's own steps -----

  lemma ScanLocks(s: State, t: nat, s': State)
    requires t < |s.threads| && HoldsNoMore(s, t, s.threads[t])
    requires EnterQueue(s, t, s') || EndScan(s, t, s')
    ensures t < |s'.threads| && HoldsNoMore(s', t, s'.threads[t])
  {
  }

  lemma StartScanLocks(s: State, t: nat, s': State)
    requires t < |s.threads| && HoldsNoMore(s, t, s.threads[t]) && StartScan(s, t, s')
    ensures t < |s'.threads| && HoldsNoMore(s', t, s'.threads[t])
  {
  }

  lemma TakeLocks(s: State, t: nat, s': State)
    requires t < |s.threads| && HoldsNoMore(s, t, s.threads[t])
    requires Take(s, t, s') || Skip(s, t, s')
    ensures t < |s'.threads| && HoldsNoMore(s', t, s'.threads[t])
  {
  }

  lemma PassOnLocks(s: State, t: nat, s': State)
    requires t < |s.threads| && HoldsNoMore(s, t, s.threads[t])
    requires PassOn(s, t, s') || Release(s, t, s')
    ensures t < |s'.threads| && HoldsNoMore(s', t, s'.threads[t])
  {
  }

  lemma LookLocks(s: State, t: nat, s': State)
    requires t < |s.threads| && HoldsNoMore(s, t, s.threads[t])
    requires Choose(s, t, s') || Pass(s, t, s')
    ensures t < |s'.threads| && HoldsNoMore(s', t, s'.threads[t])
  {
  }

  lemma LeaveLocks(s: State, t: nat, s': State)
    requires t < |s.threads| && HoldsNoMore(s, t, s.threads[t])
    requires Leave(s, t, s') || Yield(s, t, s')
    ensures t < |s'.threads| && HoldsNoMore(s', t, s'.threads[t])
  {
  }

  lemma ResumeLocks(s: State, t: nat, s': State)
    requires t < |s.threads| && HoldsNoMore(s, t, s.threads[t])
    requires Finish(s, t, s') || PassStop(s, t, s')
    ensures t < |s'.threads| && HoldsNoMore(s', t, s'.threads[t])
  {
  }

  lemma EnterLocks(s: State, t: nat, s': State)
    requires t < |s.threads| && HoldsNoMore(s, t, s.threads[t])
    requires Refuse(s, t, s') || SwapIn(s, t, s')
    ensures t < |s'.threads| && HoldsNoMore(s', t, s'.threads[t])
  {
  }

  lemma BeginLocks(s: State, t: nat, s': State)
    requires t < |s.threads| && HoldsNoMore(s, t, s.threads[t])
    requires Create(s, t, s') || Begin(s, t, s')
    ensures t < |s'.threads| && HoldsNoMore(s', t, s'.threads[t])
  {
  }

  lemma LockIdLocks(s: State, t: nat, s': State)
    requires t < |s.threads| && HoldsNoMore(s, t, s.threads[t])
    requires LockId(s, t, s')
    ensures t < |s'.threads| && HoldsNoMore(s', t, s'.threads[t])
  {
  }

  lemma ReturnLocks(s: State, t: nat, s': State)
    requires t < |s.threads| && HoldsNoMore(s, t, s.threads[t])
    requires Return(s, t, s')
    ensures t < |s'.threads| && HoldsNoMore(s', t, s'.threads[t])
  {
  }

  lemma RegisterLocks(s: State, t: nat, s': State)
    requires t < |s.threads| && HoldsNoMore(s, t, s.threads[t])
    requires Register(s, t, s') || RefuseDispatch(s, t, s')
    ensures t < |s'.threads| && HoldsNoMore(s', t, s'.threads[t])
  {
  }

  lemma EnqueueLocks(s: State, t: nat, s': State)
    requires t < |s.threads| && HoldsNoMore(s, t, s.threads[t])
    requires Configure(s, t, s') || Enqueue(s, t, s')
    ensures t < |s'.threads| && HoldsNoMore(s', t, s'.threads[t])
  {
  }

  lemma UnregisterLocks(s: State, t: nat, s': State)
    requires t < |s.threads| && HoldsNoMore(s, t, s.threads[t])
    requires Unregister(s, t, s') || RefuseRemove(s, t, s')
    ensures t < |s'.threads| && HoldsNoMore(s', t, s'.threads[t])
  {
  }

  lemma QueueLocks(s: State, t: nat, s': State)
    requires t < |s.threads| && HoldsNoMore(s, t, s.threads[t])
    requires LockQueue(s, t, s') || UnlockQueue(s, t, s')
    ensures t < |s'.threads| && HoldsNoMore(s', t, s'.threads[t])
  {
  }

  lemma SearchLocks(s: State, t: nat, s': State)
    requires t < |s.threads| && HoldsNoMore(s, t, s.threads[t])
    requires Search(s, t, s') || FindNothing(s, t, s')
    ensures t < |s'.threads| && HoldsNoMore(s', t, s'.threads[t])
  {
  }

  lemma FindLocks(s: State, t: nat, s': State)
    requires t < |s.threads| && HoldsNoMore(s, t, s.threads[t])
    requires Find(s, t, s')
    ensures t < |s'.threads| && HoldsNoMore(s', t, s'.threads[t])
  {
  }

  lemma EraseLocks(s: State, t: nat, s': State)
    requires t < |s.threads| && HoldsNoMore(s, t, s.threads[t])
    requires Erase(s, t, s')
    ensures t < |s'.threads| && HoldsNoMore(s', t, s'.threads[t])
  {
  }

  lemma FlagLocks(s: State, t: nat, s': State)
    requires t < |s.threads| && HoldsNoMore(s, t, s.threads[t])
    requires AcquireRemoved(s, t, s') || ReleaseRemoved(s, t, s')
    ensures t < |s'.threads| && HoldsNoMore(s', t, s'.threads[t])
  {
  }

  lemma ProcessorLocks(s: State, t: nat, s': State)
    requires ProcessorStep(s, t, s') && HoldsNoMore(s, t, s.threads[t])
    ensures t < |s'.threads| && HoldsNoMore(s', t, s'.threads[t])
  {
    if EnterQueue(s, t, s') || EndScan(s, t, s') {
      ScanLocks(s, t, s');
    } else if StartScan(s, t, s') {
      StartScanLocks(s, t, s');
    } else if Take(s, t, s') || Skip(s, t, s') {
      TakeLocks(s, t, s');
    } else if PassOn(s, t, s') || Release(s, t, s') {
      PassOnLocks(s, t, s');
    } else if Choose(s, t, s') || Pass(s, t, s') {
      LookLocks(s, t, s');
    } else if Leave(s, t, s') || Yield(s, t, s') {
      LeaveLocks(s, t, s');
    } else if Finish(s, t, s') || PassStop(s, t, s') {
      ResumeLocks(s, t, s');
    } else {
      EnterLocks(s, t, s');
    }
  }

  lemma ClientLocks(s: State, t: nat, s': State)
    requires ClientStep(s, t, s') && HoldsNoMore(s, t, s.threads[t])
    ensures t < |s'.threads| && HoldsNoMore(s', t, s'.threads[t])
  {
    if Create(s, t, s') || Begin(s, t, s') {
      BeginLocks(s, t, s');
    } else if LockId(s, t, s') {
      LockIdLocks(s, t, s');
    } else if Return(s, t, s') {
      ReturnLocks(s, t, s');
    } else if Register(s, t, s') || RefuseDispatch(s, t, s') {
      RegisterLocks(s, t, s');
    } else if Configure(s, t, s') || Enqueue(s, t, s') {
      EnqueueLocks(s, t, s');
    } else if Unregister(s, t, s') || RefuseRemove(s, t, s') {
      UnregisterLocks(s, t, s');
    } else if LockQueue(s, t, s') || UnlockQueue(s, t, s') {
      QueueLocks(s, t, s');
    } else if Search(s, t, s') || FindNothing(s, t, s') {
      SearchLocks(s, t, s');
    } else if Find(s, t, s') {
      FindLocks(s, t, s');
    } else if Erase(s, t, s') {
      EraseLocks(s, t, s');
    } else {
      FlagLocks(s, t, s');
    }
  }

  lemma OwnLocks(s: State, t: nat, s': State)
    requires Step(s, t, s') && HoldsNoMore(s, t, s.threads[t])
    ensures t < |s'.threads| && HoldsNoMore(s', t, s'.threads[t])
  {
    if ClientStep(s, t, s') {
      ClientLocks(s, t, s');
    } else {
      ProcessorLocks(s, t, s');
    }
  }

  // ----- the steps of the others, and runs -----

  lemma OtherLocks(s: State, t: nat, s': State, u: nat, pc: Pc)
    requires Respects(s, t, s') && u != t && HoldsNoMore(s, u, pc)
    ensures HoldsNoMore(s', u, pc)
  {
    forall id: nat | id in s'.mutexes && s'.mutexes[id] == u
      ensures HoldsMutex(pc, id)
    {
      assert IdKept(s, t, s', id);
    }
    forall place | place in s'.writers && s'.writers[place] == u
      ensures Writes(pc, place)
    {
      assert PlaceKept(s, t, s', place);
    }
  }

  lemma InitLocks(s: State, u: nat, pc: Pc)
    requires Init(s)
    ensures HoldsNoMore(s, u, pc)
  {
  }

  lemma RunThreads(run: seq<State>, moves: seq<nat>, k: nat)
    requires IsRun(run, moves) && k + 1 < |run|
    ensures |run[k + 1].threads| == |run[k].threads|
  {
    RunInv(run, moves, k);
    StepInv(run[k], moves[k], run[k + 1]);
  }

  lemma StepLocks(s: State, t: nat, s': State, u: nat)
    requires Inv(s) && Step(s, t, s') && u < |s.threads| && HoldsNoMore(s, u, s.threads[u])
    ensures u < |s'.threads| && HoldsNoMore(s', u, s'.threads[u])
  {
    if u == t {
      OwnLocks(s, t, s');
    } else {
      StepInv(s, t, s');
      OtherLocks(s, t, s', u, s.threads[u]);
    }
  }

  lemma RunLocks(run: seq<State>, moves: seq<nat>, k: nat, u: nat)
    requires IsRun(run, moves) && k + 1 < |run| && u < |run[k].threads| && HoldsNoMore(run[k], u, run[k].threads[u])
    ensures u < |run[k + 1].threads| && HoldsNoMore(run[k + 1], u, run[k + 1].threads[u])
  {
    RunInv(run, moves, k);
    StepLocks(run[k], moves[k], run[k + 1], u);
  }

  lemma {:induction false} LocksAreHeld(run: seq<State>, moves: seq<nat>, i: nat, u: nat)
    requires IsRun(run, moves) && i < |run| && u < |run[i].threads|
    ensures HoldsNoMore(run[i], u, run[i].threads[u])
  {
    if i == 0 {
      InitLocks(run[0], u, run[0].threads[u]);
    } else {
      RunThreads(run, moves, i - 1);
      LocksAreHeld(run, moves, i - 1, u);
      RunLocks(run, moves, i - 1, u);
    }
  }

  /** A thread holds a lock exactly at the points of its code between taking and freeing it, whatever
      the others do: no flag, mutex or queue section is ever left locked. */
  lemma LockedIffThere(run: seq<State>, moves: seq<nat>, i: nat, u: nat, cr: nat, id: nat, place: Place)
    requires IsRun(run, moves) && i < |run| && u < |run[i].threads|
    ensures var s := run[i];
      && (cr < |s.routines| ==> (s.routines[cr].owner == Some(u) <==> HoldsFlag(s.threads[u], cr)))
      && (Lookup(s.mutexes, id) == Some(u) <==> HoldsMutex(s.threads[u], id))
      && (Lookup(s.writers, place) == Some(u) <==> Writes(s.threads[u], place))
      && ((place, u) in s.readers <==> Reads(s.threads[u], place))
  {
    var s := run[i];
    LocksAreHeld(run, moves, i, u);
    RunInv(run, moves, i);
    assert PcInv(s, u, s.threads[u]);
  }
}
