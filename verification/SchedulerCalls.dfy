/** Calls of SchedulerClassic::DispatchTask and RemoveCRoutine that run with nobody in between: from
    any state that lets them in, they come to their end, and this is what they have done by then. */
module SchedulerCalls {
  import opened Options
  import opened SchedulerClassic

  ghost predicate RunsAlone(run: seq<State>, t: nat) {
    run != [] && forall k {:trigger run[k]} | 0 < k < |run| :: Step(run[k - 1], t, run[k])
  }

  lemma OneMoreStep(run: seq<State>, t: nat, s': State) returns (run': seq<State>)
    requires RunsAlone(run, t) && Step(run[|run| - 1], t, s')
    ensures RunsAlone(run', t) && run'[0] == run[0] && run'[|run'| - 1] == s'
  {
    run' := run + [s'];
    forall k {:trigger run'[k]} | 0 < k < |run'|
      ensures Step(run'[k - 1], t, run'[k])
    {
      if k < |run| {
        assert run'[k] == run[k] && run'[k - 1] == run[k - 1];
        assert Step(run[k - 1], t, run[k]);
      } else {
        assert run'[k] == s' && run'[k - 1] == run[|run| - 1];
      }
    }
  }

  // ----- DispatchTask -----

  /** The coroutine is registered and stands last in the queue of its configured place. */
  ghost function Dispatched(s: State, id: nat, cr: nat): State
    requires cr < |s.routines|
  {
    var place := Configured(s, s.routines[cr]);
    SetRoutine(s, cr, s.routines[cr].(place := place))
      .(registry := s.registry[id := cr], queues := s.queues[place := Queue(s, place) + [cr]],
        placed := s.placed[id := cr])
  }

  lemma DispatchEnters(s: State, t: nat, id: nat, cr: nat) returns (run: seq<State>)
    requires t < |s.threads| && s.threads[t].Client? && IsRoutine(s, cr, id)
    requires id !in s.mutexes && id !in s.registry
    ensures RunsAlone(run, t) && run[0] == s
    ensures run[|run| - 1] ==
            Goto(s, t, Configuring(id, cr)).(mutexes := s.mutexes[id := t], registry := s.registry[id := cr])
  {
    var s1 := Goto(s, t, DispatchWaits(id, cr));
    assert Begin(s, t, s1);
    run := OneMoreStep([s], t, s1);
    var s2 := Goto(s, t, Registering(id, cr)).(mutexes := s.mutexes[id := t]);
    assert LockId(s1, t, s2);
    run := OneMoreStep(run, t, s2);
    var s3 := Goto(s, t, Configuring(id, cr)).(mutexes := s.mutexes[id := t], registry := s.registry[id := cr]);
    assert Register(s2, t, s3);
    run := OneMoreStep(run, t, s3);
  }

  lemma DispatchConfigures(before: seq<State>, t: nat, id: nat, cr: nat, place: Place) returns (run: seq<State>)
    requires RunsAlone(before, t)
    requires var s := before[|before| - 1];
      t < |s.threads| && s.threads[t] == Configuring(id, cr) && cr < |s.routines| && place == Configured(s, s.routines[cr])
    ensures RunsAlone(run, t) && run[0] == before[0]
    ensures var s := before[|before| - 1];
      run[|run| - 1] == SetRoutine(Goto(s, t, Enqueueing(id, cr)), cr, s.routines[cr].(place := place))
  {
    var s := before[|before| - 1];
    var s' := SetRoutine(Goto(s, t, Enqueueing(id, cr)), cr, s.routines[cr].(place := place));
    assert Configure(s, t, s');
    run := OneMoreStep(before, t, s');
  }

  lemma DispatchLeaves(before: seq<State>, t: nat, id: nat, cr: nat) returns (run: seq<State>)
    requires RunsAlone(before, t)
    requires var s := before[|before| - 1];
      t < |s.threads| && s.threads[t] == Enqueueing(id, cr) && cr < |s.routines| && Free(s, s.routines[cr].place)
    ensures RunsAlone(run, t) && run[0] == before[0]
    ensures var s := before[|before| - 1]; var place := s.routines[cr].place;
      run[|run| - 1] == Goto(s, t, Client).(queues := s.queues[place := Queue(s, place) + [cr]],
                                            placed := s.placed[id := cr], mutexes := s.mutexes - {id})
  {
    var s := before[|before| - 1];
    var place := s.routines[cr].place;
    var s1 := Goto(s, t, DispatchReturns(id, cr, true))
              .(queues := s.queues[place := Queue(s, place) + [cr]], placed := s.placed[id := cr]);
    assert Enqueue(s, t, s1);
    run := OneMoreStep(before, t, s1);
    var s2 := Goto(s1, t, Client).(mutexes := s.mutexes - {id});
    assert Return(s1, t, s2);
    run := OneMoreStep(run, t, s2);
  }

  /** The coroutine is about to be put into its queue. */
  ghost function Placed(s: State, t: nat, id: nat, cr: nat): State
    requires t < |s.threads| && cr < |s.routines|
  {
    SetRoutine(Goto(s, t, Enqueueing(id, cr)), cr, s.routines[cr].(place := Configured(s, s.routines[cr])))
      .(mutexes := s.mutexes[id := t], registry := s.registry[id := cr])
  }

  lemma DispatchPlaces(s: State, t: nat, id: nat, cr: nat) returns (run: seq<State>)
    requires t < |s.threads| && s.threads[t].Client? && IsRoutine(s, cr, id)
    requires id !in s.mutexes && id !in s.registry
    ensures RunsAlone(run, t) && run[0] == s && run[|run| - 1] == Placed(s, t, id, cr)
  {
    run := DispatchEnters(s, t, id, cr);
    run := DispatchConfigures(run, t, id, cr, Configured(s, s.routines[cr]));
  }

  /** A dispatch of a coroutine that is not registered, with nobody in the way. */
  lemma DispatchAlone(s: State, t: nat, id: nat, cr: nat) returns (run: seq<State>)
    requires t < |s.threads| && s.threads[t].Client? && IsRoutine(s, cr, id)
    requires id !in s.mutexes && id !in s.registry && Free(s, Configured(s, s.routines[cr]))
    ensures RunsAlone(run, t) && run[0] == s && run[|run| - 1] == Dispatched(s, id, cr)
  {
    run := DispatchPlaces(s, t, id, cr);
    var placed := Placed(s, t, id, cr);
    var place := Configured(s, s.routines[cr]);
    assert Free(placed, place) && Queue(placed, place) == Queue(s, place);
    run := DispatchLeaves(run, t, id, cr);
    assert placed.mutexes - {id} == s.mutexes && placed.threads[t := Client] == s.threads;
  }

  // ----- RemoveCRoutine -----

  /** The coroutine is stopped, not registered, and no longer in its queue. */
  ghost function RemovedAt(s: State, id: nat, cr: nat, place: Place, index: nat): State
    requires cr < |s.routines| && index < |Queue(s, place)|
  {
    var queue := Queue(s, place);
    SetRoutine(s, cr, s.routines[cr].(stopped := true))
      .(registry := s.registry - {id}, queues := s.queues[place := queue[..index] + queue[index + 1..]],
        placed := s.placed - {id})
  }

  /** A registered coroutine stands at exactly one index of its queue, and no other entry has its id. */
  lemma WhereItStands(s: State, id: nat) returns (index: nat)
    requires Inv(s) && id in s.registry && id !in s.mutexes
    ensures var cr := s.registry[id]; IsRoutine(s, cr, id) && ElementAt(Queue(s, s.routines[cr].place), index) == Some(cr)
    ensures var queue := Queue(s, s.routines[s.registry[id]].place);
      forall k {:trigger queue[k]} | 0 <= k < index :: !IsRoutine(s, queue[k], id)
  {
    assert Lookup(s.registry, id) == Lookup(s.placed, id) && PlacedInv(s, id);
    var cr := s.registry[id];
    var place := s.routines[cr].place;
    var queue := Queue(s, place);
    index :| 0 <= index < |queue| && queue[index] == cr;
    assert QueueInv(s, place);
    forall k {:trigger queue[k]} | 0 <= k < index
      ensures !IsRoutine(s, queue[k], id)
    {
      assert EntryInv(s, place, queue[k]) && queue[k] != queue[index];
    }
  }

  lemma RemovalEnters(s: State, t: nat, id: nat, cr: nat, place: Place) returns (run: seq<State>)
    requires t < |s.threads| && s.threads[t].Client? && id !in s.mutexes
    requires id in s.registry && s.registry[id] == cr < |s.routines| && s.routines[cr].place == place && Free(s, place)
    ensures RunsAlone(run, t) && run[0] == s
    ensures run[|run| - 1] ==
            SetRoutine(Goto(s, t, Searching(id, cr, place, 0)), cr, s.routines[cr].(stopped := true))
            .(mutexes := s.mutexes[id := t], registry := s.registry - {id}, writers := s.writers[place := t])
  {
    var s1 := Goto(s, t, RemoveWaits(id));
    assert Begin(s, t, s1);
    run := OneMoreStep([s], t, s1);
    var s2 := Goto(s, t, Unregistering(id)).(mutexes := s.mutexes[id := t]);
    assert LockId(s1, t, s2);
    run := OneMoreStep(run, t, s2);
    var s3 := SetRoutine(Goto(s2, t, WantsQueue(id, cr, place)), cr, s.routines[cr].(stopped := true))
              .(registry := s.registry - {id});
    assert Unregister(s2, t, s3);
    run := OneMoreStep(run, t, s3);
    assert Free(s3, place);
    var s4 := Goto(s3, t, Searching(id, cr, place, 0)).(writers := s.writers[place := t]);
    assert LockQueue(s3, t, s4);
    run := OneMoreStep(run, t, s4);
  }

  lemma SearchOn(before: seq<State>, t: nat, id: nat, cr: nat, place: Place, k: nat) returns (run: seq<State>)
    requires RunsAlone(before, t)
    requires var s := before[|before| - 1];
      && t < |s.threads| && s.threads[t] == Searching(id, cr, place, k)
      && k < |Queue(s, place)| && !IsRoutine(s, Queue(s, place)[k], id)
    ensures RunsAlone(run, t) && run[0] == before[0]
    ensures run[|run| - 1] == Goto(before[|before| - 1], t, Searching(id, cr, place, k + 1))
  {
    var s := before[|before| - 1];
    var s' := Goto(s, t, Searching(id, cr, place, k + 1));
    assert Search(s, t, s');
    run := OneMoreStep(before, t, s');
  }

  lemma SearchEnds(before: seq<State>, t: nat, id: nat, cr: nat, place: Place, index: nat) returns (run: seq<State>)
    requires RunsAlone(before, t)
    requires var s := before[|before| - 1];
      && t < |s.threads| && s.threads[t] == Searching(id, cr, place, 0) && IsRoutine(s, cr, id)
      && ElementAt(Queue(s, place), index) == Some(cr) && s.routines[cr].stopped
      && (forall k {:trigger Queue(s, place)[k]} | 0 <= k < index :: !IsRoutine(s, Queue(s, place)[k], id))
    ensures RunsAlone(run, t) && run[0] == before[0]
    ensures run[|run| - 1] == Goto(before[|before| - 1], t, Acquiring(id, cr, place, index))
  {
    var s := before[|before| - 1];
    run := before;
    for k := 0 to index
      invariant RunsAlone(run, t) && run[0] == before[0]
      invariant run[|run| - 1] == Goto(s, t, Searching(id, cr, place, k))
    {
      assert !IsRoutine(s, Queue(s, place)[k], id);
      run := SearchOn(run, t, id, cr, place, k);
    }
    var last, found := Goto(s, t, Searching(id, cr, place, index)), Goto(s, t, Acquiring(id, cr, place, index));
    assert found == SetRoutine(found, cr, s.routines[cr].(stopped := true));
    assert Find(last, t, found);
    run := OneMoreStep(run, t, found);
  }

  lemma RemovalLeaves(before: seq<State>, t: nat, id: nat, cr: nat, place: Place, index: nat) returns (run: seq<State>)
    requires RunsAlone(before, t)
    requires var s := before[|before| - 1];
      && t < |s.threads| && s.threads[t] == Acquiring(id, cr, place, index)
      && cr < |s.routines| && s.routines[cr].owner == None && index < |Queue(s, place)|
    ensures RunsAlone(run, t) && run[0] == before[0]
    ensures var s := before[|before| - 1]; var queue := Queue(s, place);
      run[|run| - 1] == Goto(s, t, Client).(queues := s.queues[place := queue[..index] + queue[index + 1..]],
                                            placed := s.placed - {id}, writers := s.writers - {place},
                                            mutexes := s.mutexes - {id})
  {
    var s := before[|before| - 1];
    var queue := Queue(s, place);
    var s1 := SetRoutine(Goto(s, t, Erasing(id, cr, place, index)), cr, s.routines[cr].(owner := Some(t)));
    assert AcquireRemoved(s, t, s1);
    run := OneMoreStep(before, t, s1);
    var s2 := Goto(s1, t, Letting(id, cr, place))
              .(queues := s.queues[place := queue[..index] + queue[index + 1..]], placed := s.placed - {id});
    assert Erase(s1, t, s2);
    run := OneMoreStep(run, t, s2);
    var s3 := SetRoutine(Goto(s2, t, Unlocking(id, place, true)), cr, s.routines[cr]);
    assert ReleaseRemoved(s2, t, s3);
    run := OneMoreStep(run, t, s3);
    var s4 := Goto(s3, t, RemoveReturns(id, true)).(writers := s.writers - {place});
    assert UnlockQueue(s3, t, s4);
    run := OneMoreStep(run, t, s4);
    var s5 := Goto(s4, t, Client).(mutexes := s.mutexes - {id});
    assert Return(s4, t, s5);
    run := OneMoreStep(run, t, s5);
    assert s5.routines == s.routines;
  }

  /** The coroutine is about to be taken out of its queue. */
  ghost function Found(s: State, t: nat, id: nat, cr: nat, place: Place, index: nat): State
    requires t < |s.threads| && cr < |s.routines|
  {
    SetRoutine(Goto(s, t, Acquiring(id, cr, place, index)), cr, s.routines[cr].(stopped := true))
      .(mutexes := s.mutexes[id := t], registry := s.registry - {id}, writers := s.writers[place := t])
  }

  lemma RemovalFinds(s: State, t: nat, id: nat, cr: nat, place: Place, index: nat) returns (run: seq<State>)
    requires t < |s.threads| && s.threads[t].Client? && id !in s.mutexes
    requires id in s.registry && s.registry[id] == cr && IsRoutine(s, cr, id)
    requires s.routines[cr].place == place && Free(s, place) && ElementAt(Queue(s, place), index) == Some(cr)
    requires forall k {:trigger Queue(s, place)[k]} | 0 <= k < index :: !IsRoutine(s, Queue(s, place)[k], id)
    ensures RunsAlone(run, t) && run[0] == s && run[|run| - 1] == Found(s, t, id, cr, place, index)
  {
    run := RemovalEnters(s, t, id, cr, place);
    StillThere(s, run[|run| - 1], id, cr, place, index);
    run := SearchEnds(run, t, id, cr, place, index);
  }

  lemma RemovalRuns(s: State, t: nat, id: nat, cr: nat, place: Place, index: nat) returns (run: seq<State>)
    requires t < |s.threads| && s.threads[t].Client? && id !in s.mutexes
    requires id in s.registry && s.registry[id] == cr && IsRoutine(s, cr, id)
    requires s.routines[cr].place == place && s.routines[cr].owner == None && Free(s, place)
    requires ElementAt(Queue(s, place), index) == Some(cr)
    requires forall k {:trigger Queue(s, place)[k]} | 0 <= k < index :: !IsRoutine(s, Queue(s, place)[k], id)
    ensures RunsAlone(run, t) && run[0] == s && run[|run| - 1] == RemovedAt(s, id, cr, place, index)
  {
    run := RemovalFinds(s, t, id, cr, place, index);
    var found := Found(s, t, id, cr, place, index);
    assert Queue(found, place) == Queue(s, place);
    run := RemovalLeaves(run, t, id, cr, place, index);
    assert found.mutexes - {id} == s.mutexes && found.writers - {place} == s.writers;
    assert found.threads[t := Client] == s.threads;
  }

  /** A removal of a registered coroutine that no processor has taken, with nobody in the way. */
  lemma RemovalAlone(s: State, t: nat, id: nat) returns (run: seq<State>, index: nat)
    requires Inv(s) && t < |s.threads| && s.threads[t].Client? && id !in s.mutexes && id in s.registry
    requires var cr := s.registry[id];
      cr < |s.routines| && s.routines[cr].owner == None && Free(s, s.routines[cr].place)
    ensures var cr := s.registry[id]; var place := s.routines[cr].place;
      && RunsAlone(run, t) && run[0] == s
      && ElementAt(Queue(s, place), index) == Some(cr) && run[|run| - 1] == RemovedAt(s, id, cr, place, index)
  {
    index := WhereItStands(s, id);
    run := RemovalRuns(s, t, id, s.registry[id], s.routines[s.registry[id]].place, index);
  }

  /** Stopping a coroutine changes no queue and no id. */
  lemma StillThere(s: State, s': State, id: nat, cr: nat, place: Place, index: nat)
    requires cr < |s.routines| && s'.queues == s.queues && s'.routines == s.routines[cr := s.routines[cr].(stopped := true)]
    requires IsRoutine(s, cr, id) && index <= |Queue(s, place)|
    requires forall k {:trigger Queue(s, place)[k]} | 0 <= k < index :: !IsRoutine(s, Queue(s, place)[k], id)
    ensures IsRoutine(s', cr, id) && Queue(s', place) == Queue(s, place)
    ensures forall k {:trigger Queue(s', place)[k]} | 0 <= k < index :: !IsRoutine(s', Queue(s', place)[k], id)
  {
  }
}
