/** Dispatch, removal and execution of coroutines: SchedulerClassic::DispatchTask and
    RemoveCRoutine, ClassicContext::NextRoutine and Processor::Run.

    Any number of client threads and of processors run side by side.  Taking a lock, one access to
    the registry, to a coroutine's lock flag or to its stop flag is one step each; the state of a
    coroutine belongs to the thread that has set the lock flag, so that the accesses to it join other
    steps.  RemoveCRoutine sets the stop flag and unregisters in one step, under the registry's lock;
    Resume holds no lock and has its own step for the look at the stop flag.  Every lock is kept with
    the threads that hold it, of which the code sees only whether there are any.  The wake-up
    of waiting coroutines is the subject of module WakeUp; here UpdateState may turn any waiting
    state into READY. */
module SchedulerClassic {
  import opened Options

  const MAX_PRIO: nat := 20

  datatype RoutineState = READY | SLEEP | IO_WAIT | DATA_WAIT | FINISHED

  /** A run queue: a group name and a priority. */
  datatype Place = Place(group: string, prio: nat)

  /** `owner` is the thread that has set the lock flag; `wished` records the priority that the
      coroutine was constructed with. */
  datatype Routine = Routine(
    id: nat, name: string, wished: nat, place: Place, state: RoutineState, stopped: bool, owner: Option<nat>)

  datatype Pc =
    | Client
    // DispatchTask
    | DispatchWaits(id: nat, cr: nat)
    | Registering(id: nat, cr: nat)
    | Configuring(id: nat, cr: nat)
    | Enqueueing(id: nat, cr: nat)
    | DispatchReturns(id: nat, cr: nat, ok: bool)
    // RemoveCRoutine
    | RemoveWaits(id: nat)
    | Unregistering(id: nat)
    | WantsQueue(id: nat, cr: nat, place: Place)
    | Searching(id: nat, cr: nat, place: Place, index: nat)
    | Acquiring(id: nat, cr: nat, place: Place, index: nat)
    | Erasing(id: nat, cr: nat, place: Place, index: nat)
    | Letting(id: nat, cr: nat, place: Place)
    | Unlocking(id: nat, place: Place, ok: bool)
    | RemoveReturns(id: nat, ok: bool)
    // Processor::Run and NextRoutine
    | Between(group: string)
    | EnteringQueue(group: string, prio: nat)
    | Scanning(group: string, prio: nat, index: nat)
    | Updating(group: string, prio: nat, index: nat, cr: nat)
    | Passing(group: string, prio: nat, index: nat, cr: nat)
    | Leaving(group: string, prio: nat, cr: nat)
    | Resuming(group: string, cr: nat)
    | Entering(group: string, cr: nat)
    | Running(group: string, cr: nat)
    | Releasing(group: string, cr: nat)

  /** `confs` and `defaultGroup` are the task configuration; `mutexes` are the per-id mutexes,
      `writers` and `readers` the holders of the queues' reader-writer locks.  `placed` records
      for each id the coroutine that was put into a queue and not taken out again. */
  datatype State = State(
    confs: map<string, Place>, defaultGroup: string,
    routines: seq<Routine>, registry: map<nat, nat>, queues: map<Place, seq<nat>>, placed: map<nat, nat>,
    mutexes: map<nat, nat>, writers: map<Place, nat>, readers: set<(Place, nat)>, threads: seq<Pc>)

  ghost function Lookup<K, V>(m: map<K, V>, key: K): Option<V> {
    if key in m then Some(m[key]) else None
  }

  ghost function Queue(s: State, place: Place): seq<nat> {
    if place in s.queues then s.queues[place] else []
  }

  ghost predicate IsRoutine(s: State, cr: nat, id: nat) {
    cr < |s.routines| && s.routines[cr].id == id
  }

  // ----- the steps of the clients -----

  ghost predicate Init(s: State) {
    && s.routines == [] && s.registry == map[] && s.queues == map[] && s.placed == map[]
    && s.mutexes == map[] && s.writers == map[] && s.readers == {}
    && (forall t {:trigger s.threads[t]} | 0 <= t < |s.threads| :: s.threads[t].Client? || s.threads[t].Between?)
  }

  ghost function Goto(s: State, t: nat, pc: Pc): State
    requires t < |s.threads|
  {
    s.(threads := s.threads[t := pc])
  }

  ghost function SetRoutine(s: State, cr: nat, r: Routine): State
    requires cr < |s.routines|
  {
    s.(routines := s.routines[cr := r])
  }

  /** A coroutine is constructed; its id and name are set before anybody else sees it. */
  ghost predicate Create(s: State, t: nat, s': State)
    requires t < |s.threads|
  {
    && s.threads[t].Client? && |s'.routines| == |s.routines| + 1
    && var r := s'.routines[|s.routines|];
    && r.state == READY && !r.stopped && r.owner == None && r.place.prio == r.wished
    && s' == s.(routines := s.routines + [r])
  }

  /** A call of DispatchTask or RemoveCRoutine begins. */
  ghost predicate Begin(s: State, t: nat, s': State)
    requires t < |s.threads|
  {
    && s.threads[t].Client? && |s'.threads| == |s.threads|
    && var pc := s'.threads[t];
    && (pc.RemoveWaits? || (pc.DispatchWaits? && IsRoutine(s, pc.cr, pc.id)))
    && s' == Goto(s, t, pc)
  }

  /** The mutex of the id is taken. */
  ghost predicate LockId(s: State, t: nat, s': State)
    requires t < |s.threads|
  {
    && (s.threads[t].DispatchWaits? || s.threads[t].RemoveWaits?)
    && var pc := s.threads[t];
    && pc.id !in s.mutexes
    && s' == Goto(s, t, if pc.DispatchWaits? then Registering(pc.id, pc.cr) else Unregistering(pc.id))
             .(mutexes := s.mutexes[pc.id := t])
  }

  ghost predicate Register(s: State, t: nat, s': State)
    requires t < |s.threads|
  {
    && s.threads[t].Registering?
    && var Registering(id, cr) := s.threads[t];
    && id !in s.registry
    && s' == Goto(s, t, Configuring(id, cr)).(registry := s.registry[id := cr])
  }

  ghost predicate RefuseDispatch(s: State, t: nat, s': State)
    requires t < |s.threads|
  {
    && s.threads[t].Registering?
    && var Registering(id, cr) := s.threads[t];
    && id in s.registry
    && s' == Goto(s, t, DispatchReturns(id, cr, false))
  }

  /** The configured place, or the coroutine's own priority in the first configured group. */
  ghost function Configured(s: State, r: Routine): (place: Place)
    ensures place.prio < MAX_PRIO
  {
    var wanted := if r.name in s.confs then s.confs[r.name] else Place(s.defaultGroup, r.place.prio);
    if wanted.prio >= MAX_PRIO then wanted.(prio := MAX_PRIO - 1) else wanted
  }

  ghost predicate Configure(s: State, t: nat, s': State)
    requires t < |s.threads|
  {
    && s.threads[t].Configuring?
    && var Configuring(id, cr) := s.threads[t];
    && cr < |s.routines|
    && s' == SetRoutine(Goto(s, t, Enqueueing(id, cr)), cr, s.routines[cr].(place := Configured(s, s.routines[cr])))
  }

  /** Nobody is inside the section of the queue. */
  ghost predicate Free(s: State, place: Place) {
    place !in s.writers && forall u: nat {:trigger (place, u) in s.readers} :: (place, u) !in s.readers
  }

  /** The whole write section of the queue. */
  ghost predicate Enqueue(s: State, t: nat, s': State)
    requires t < |s.threads|
  {
    && s.threads[t].Enqueueing?
    && var Enqueueing(id, cr) := s.threads[t];
    && cr < |s.routines|
    && var place := s.routines[cr].place;
    && Free(s, place)
    && s' == Goto(s, t, DispatchReturns(id, cr, true))
             .(queues := s.queues[place := Queue(s, place) + [cr]], placed := s.placed[id := cr])
  }

  /** Dispatch or removal ends: the mutex of the id is freed. */
  ghost predicate Return(s: State, t: nat, s': State)
    requires t < |s.threads|
  {
    && (s.threads[t].DispatchReturns? || s.threads[t].RemoveReturns?)
    && s' == Goto(s, t, Client).(mutexes := s.mutexes - {s.threads[t].id})
  }

  ghost predicate Unregister(s: State, t: nat, s': State)
    requires t < |s.threads|
  {
    && s.threads[t].Unregistering?
    && var id := s.threads[t].id;
    && id in s.registry
    && var cr := s.registry[id];
    && cr < |s.routines|
    && s' == SetRoutine(Goto(s, t, WantsQueue(id, cr, s.routines[cr].place)), cr, s.routines[cr].(stopped := true))
             .(registry := s.registry - {id})
  }

  ghost predicate RefuseRemove(s: State, t: nat, s': State)
    requires t < |s.threads|
  {
    && s.threads[t].Unregistering?
    && var id := s.threads[t].id;
    && id !in s.registry
    && s' == Goto(s, t, RemoveReturns(id, false))
  }

  ghost predicate LockQueue(s: State, t: nat, s': State)
    requires t < |s.threads|
  {
    && s.threads[t].WantsQueue?
    && var WantsQueue(id, cr, place) := s.threads[t];
    && Free(s, place)
    && s' == Goto(s, t, Searching(id, cr, place, 0)).(writers := s.writers[place := t])
  }

  /** The search for the queue entry with this id looks at the next entry. */
  ghost predicate Search(s: State, t: nat, s': State)
    requires t < |s.threads|
  {
    && s.threads[t].Searching?
    && var Searching(id, cr, place, index) := s.threads[t];
    && index < |Queue(s, place)| && !IsRoutine(s, Queue(s, place)[index], id)
    && s' == Goto(s, t, Searching(id, cr, place, index + 1))
  }

  ghost predicate Find(s: State, t: nat, s': State)
    requires t < |s.threads|
  {
    && s.threads[t].Searching?
    && var Searching(id, cr, place, index) := s.threads[t];
    && index < |Queue(s, place)|
    && var found := Queue(s, place)[index];
    && IsRoutine(s, found, id)
    && s' == SetRoutine(Goto(s, t, Acquiring(id, found, place, index)), found, s.routines[found].(stopped := true))
  }

  ghost predicate FindNothing(s: State, t: nat, s': State)
    requires t < |s.threads|
  {
    && s.threads[t].Searching?
    && var Searching(id, cr, place, index) := s.threads[t];
    && index >= |Queue(s, place)|
    && s' == Goto(s, t, Unlocking(id, place, false))
  }

  /** The spinning test-and-set succeeds. */
  ghost predicate AcquireRemoved(s: State, t: nat, s': State)
    requires t < |s.threads|
  {
    && s.threads[t].Acquiring?
    && var Acquiring(id, cr, place, index) := s.threads[t];
    && cr < |s.routines| && s.routines[cr].owner == None
    && s' == SetRoutine(Goto(s, t, Erasing(id, cr, place, index)), cr, s.routines[cr].(owner := Some(t)))
  }

  ghost predicate Erase(s: State, t: nat, s': State)
    requires t < |s.threads|
  {
    && s.threads[t].Erasing?
    && var Erasing(id, cr, place, index) := s.threads[t];
    && var queue := Queue(s, place);
    && index < |queue|
    && s' == Goto(s, t, Letting(id, cr, place))
             .(queues := s.queues[place := queue[..index] + queue[index + 1..]], placed := s.placed - {id})
  }

  ghost predicate ReleaseRemoved(s: State, t: nat, s': State)
    requires t < |s.threads|
  {
    && s.threads[t].Letting?
    && var Letting(id, cr, place) := s.threads[t];
    && cr < |s.routines|
    && s' == SetRoutine(Goto(s, t, Unlocking(id, place, true)), cr, s.routines[cr].(owner := None))
  }

  ghost predicate UnlockQueue(s: State, t: nat, s': State)
    requires t < |s.threads|
  {
    && s.threads[t].Unlocking?
    && var Unlocking(id, place, ok) := s.threads[t];
    && s' == Goto(s, t, RemoveReturns(id, ok)).(writers := s.writers - {place})
  }

  ghost predicate ClientStep(s: State, t: nat, s': State) {
    && t < |s.threads|
    && (|| Create(s, t, s') || Begin(s, t, s') || LockId(s, t, s')
        || Register(s, t, s') || RefuseDispatch(s, t, s') || Configure(s, t, s') || Enqueue(s, t, s') || Return(s, t, s')
        || Unregister(s, t, s') || RefuseRemove(s, t, s') || LockQueue(s, t, s') || Search(s, t, s') || Find(s, t, s')
        || FindNothing(s, t, s') || AcquireRemoved(s, t, s') || Erase(s, t, s') || ReleaseRemoved(s, t, s')
        || UnlockQueue(s, t, s'))
  }

  // ----- the steps of the processors -----

  ghost predicate StartScan(s: State, t: nat, s': State)
    requires t < |s.threads|
  {
    s.threads[t].Between? && s' == Goto(s, t, EnteringQueue(s.threads[t].group, MAX_PRIO - 1))
  }

  ghost predicate EnterQueue(s: State, t: nat, s': State)
    requires t < |s.threads|
  {
    && s.threads[t].EnteringQueue?
    && var EnteringQueue(group, prio) := s.threads[t];
    && Place(group, prio) !in s.writers
    && s' == Goto(s, t, Scanning(group, prio, 0)).(readers := s.readers + {(Place(group, prio), t)})
  }

  /** One round of the scan: the test-and-set of the next coroutine's flag succeeds. */
  ghost predicate Take(s: State, t: nat, s': State)
    requires t < |s.threads|
  {
    && s.threads[t].Scanning?
    && var Scanning(group, prio, index) := s.threads[t];
    && var queue := Queue(s, Place(group, prio));
    && index < |queue| && queue[index] < |s.routines|
    && var cr := queue[index];
    && s.routines[cr].owner == None
    && s' == SetRoutine(Goto(s, t, Updating(group, prio, index, cr)), cr, s.routines[cr].(owner := Some(t)))
  }

  ghost predicate Skip(s: State, t: nat, s': State)
    requires t < |s.threads|
  {
    && s.threads[t].Scanning?
    && var Scanning(group, prio, index) := s.threads[t];
    && var queue := Queue(s, Place(group, prio));
    && index < |queue| && queue[index] < |s.routines| && s.routines[queue[index]].owner.Some?
    && s' == Goto(s, t, Scanning(group, prio, index + 1))
  }

  /** The end of the queue is reached: on to the next lower priority. */
  ghost predicate EndScan(s: State, t: nat, s': State)
    requires t < |s.threads|
  {
    && s.threads[t].Scanning?
    && var Scanning(group, prio, index) := s.threads[t];
    && index >= |Queue(s, Place(group, prio))|
    && s' == Goto(s, t, if prio > 0 then EnteringQueue(group, prio - 1) else Between(group))
             .(readers := s.readers - {(Place(group, prio), t)})
  }

  /** UpdateState gives READY. */
  ghost predicate Choose(s: State, t: nat, s': State)
    requires t < |s.threads|
  {
    && s.threads[t].Updating?
    && var Updating(group, prio, index, cr) := s.threads[t];
    && cr < |s.routines| && s.routines[cr].state != FINISHED
    && s' == SetRoutine(Goto(s, t, Leaving(group, prio, cr)), cr, s.routines[cr].(state := READY))
  }

  ghost predicate Pass(s: State, t: nat, s': State)
    requires t < |s.threads|
  {
    && s.threads[t].Updating?
    && var Updating(group, prio, index, cr) := s.threads[t];
    && cr < |s.routines| && s.routines[cr].state != READY
    && s' == Goto(s, t, Passing(group, prio, index, cr))
  }

  ghost predicate PassOn(s: State, t: nat, s': State)
    requires t < |s.threads|
  {
    && s.threads[t].Passing?
    && var Passing(group, prio, index, cr) := s.threads[t];
    && cr < |s.routines|
    && s' == SetRoutine(Goto(s, t, Scanning(group, prio, index + 1)), cr, s.routines[cr].(owner := None))
  }

  /** NextRoutine returns the coroutine, and with that gives up the queue's lock. */
  ghost predicate Leave(s: State, t: nat, s': State)
    requires t < |s.threads|
  {
    && s.threads[t].Leaving?
    && var Leaving(group, prio, cr) := s.threads[t];
    && s' == Goto(s, t, Resuming(group, cr)).(readers := s.readers - {(Place(group, prio), t)})
  }

  /** Resume finds the coroutine stopped. */
  ghost predicate Finish(s: State, t: nat, s': State)
    requires t < |s.threads|
  {
    && s.threads[t].Resuming?
    && var Resuming(group, cr) := s.threads[t];
    && cr < |s.routines| && s.routines[cr].stopped
    && s' == SetRoutine(Goto(s, t, Releasing(group, cr)), cr, s.routines[cr].(state := FINISHED))
  }

  /** Resume finds the coroutine not stopped, and does not look again. */
  ghost predicate PassStop(s: State, t: nat, s': State)
    requires t < |s.threads|
  {
    && s.threads[t].Resuming?
    && var Resuming(group, cr) := s.threads[t];
    && cr < |s.routines| && !s.routines[cr].stopped
    && s' == Goto(s, t, Entering(group, cr))
  }

  ghost predicate Refuse(s: State, t: nat, s': State)
    requires t < |s.threads|
  {
    && s.threads[t].Entering?
    && var Entering(group, cr) := s.threads[t];
    && cr < |s.routines| && s.routines[cr].state != READY
    && s' == Goto(s, t, Releasing(group, cr))
  }

  /** Resume swaps the coroutine in. */
  ghost predicate SwapIn(s: State, t: nat, s': State)
    requires t < |s.threads|
  {
    && s.threads[t].Entering?
    && var Entering(group, cr) := s.threads[t];
    && cr < |s.routines| && s.routines[cr].state == READY
    && s' == Goto(s, t, Running(group, cr))
  }

  /** The coroutine's own code runs until it yields, with a state of its choice. */
  ghost predicate Yield(s: State, t: nat, s': State)
    requires t < |s.threads|
  {
    && s.threads[t].Running?
    && var Running(group, cr) := s.threads[t];
    && cr < |s.routines| && |s'.routines| == |s.routines|
    && s' == SetRoutine(Goto(s, t, Releasing(group, cr)), cr, s.routines[cr].(state := s'.routines[cr].state))
  }

  ghost predicate Release(s: State, t: nat, s': State)
    requires t < |s.threads|
  {
    && s.threads[t].Releasing?
    && var Releasing(group, cr) := s.threads[t];
    && cr < |s.routines|
    && s' == SetRoutine(Goto(s, t, Between(group)), cr, s.routines[cr].(owner := None))
  }

  ghost predicate ProcessorStep(s: State, t: nat, s': State) {
    && t < |s.threads|
    && (|| StartScan(s, t, s') || EnterQueue(s, t, s') || Take(s, t, s') || Skip(s, t, s') || EndScan(s, t, s')
        || Choose(s, t, s') || Pass(s, t, s') || PassOn(s, t, s') || Leave(s, t, s') || Finish(s, t, s')
        || PassStop(s, t, s') || Refuse(s, t, s') || SwapIn(s, t, s') || Yield(s, t, s') || Release(s, t, s'))
  }

  ghost predicate Step(s: State, t: nat, s': State) {
    ClientStep(s, t, s') || ProcessorStep(s, t, s')
  }

  // ----- the invariant -----

  /** Entry `index` of a queue is the placed coroutine of its id, at its own place. */
  ghost predicate EntryInv(s: State, place: Place, cr: nat) {
    && cr < |s.routines| && s.routines[cr].place == place == Configured(s, s.routines[cr])
    && Lookup(s.placed, s.routines[cr].id) == Some(cr)
  }

  ghost predicate NoRepeat(queue: seq<nat>) {
    forall i, j {:trigger queue[i], queue[j]} | 0 <= i < j < |queue| :: queue[i] != queue[j]
  }

  ghost predicate QueueInv(s: State, place: Place) {
    && NoRepeat(Queue(s, place))
    && (forall cr {:trigger EntryInv(s, place, cr)} | cr in Queue(s, place) :: EntryInv(s, place, cr))
  }

  /** The placed coroutine of an id is in the queue that its place names. */
  ghost predicate PlacedInv(s: State, id: nat) {
    id in s.placed ==>
      IsRoutine(s, s.placed[id], id) && s.placed[id] in Queue(s, s.routines[s.placed[id]].place)
  }

  ghost predicate QueuesInv(s: State) {
    && (forall place {:trigger QueueInv(s, place)} :: QueueInv(s, place))
    && (forall id: nat {:trigger PlacedInv(s, id)} :: PlacedInv(s, id))
  }

  ghost predicate Mutex(s: State, t: nat, id: nat) {
    Lookup(s.mutexes, id) == Some(t)
  }

  ghost predicate Flag(s: State, t: nat, cr: nat) {
    cr < |s.routines| && s.routines[cr].owner == Some(t)
  }

  /** Thread t owns the coroutine, which is READY. */
  ghost predicate OwnsReady(s: State, t: nat, cr: nat) {
    Flag(s, t, cr) && s.routines[cr].state == READY
  }

  /** The coroutine is being removed: stopped and no longer registered, still in its queue. */
  ghost predicate Removing(s: State, t: nat, id: nat, cr: nat, place: Place) {
    && Mutex(s, t, id) && IsRoutine(s, cr, id) && s.routines[cr].place == place && s.routines[cr].stopped
    && Lookup(s.registry, id) == None && Lookup(s.placed, id) == Some(cr)
  }

  /** What is true whenever thread t stands at pc. */
  ghost predicate PcInv(s: State, t: nat, pc: Pc) {
    match pc
    case Client => true
    case DispatchWaits(id, cr) => IsRoutine(s, cr, id)
    case Registering(id, cr) =>
      Mutex(s, t, id) && IsRoutine(s, cr, id) && Lookup(s.placed, id) == Lookup(s.registry, id)
    case Configuring(id, cr) =>
      Mutex(s, t, id) && IsRoutine(s, cr, id) && Lookup(s.registry, id) == Some(cr) && Lookup(s.placed, id) == None
    case Enqueueing(id, cr) =>
      && Mutex(s, t, id) && IsRoutine(s, cr, id) && Lookup(s.registry, id) == Some(cr)
      && Lookup(s.placed, id) == None && s.routines[cr].place == Configured(s, s.routines[cr])
    case DispatchReturns(id, _, _) => Mutex(s, t, id) && Lookup(s.placed, id) == Lookup(s.registry, id)
    case RemoveWaits(_) => true
    case Unregistering(id) => Mutex(s, t, id) && Lookup(s.placed, id) == Lookup(s.registry, id)
    case WantsQueue(id, cr, place) => Removing(s, t, id, cr, place)
    case Searching(id, cr, place, index) =>
      && Removing(s, t, id, cr, place) && Lookup(s.writers, place) == Some(t)
      && index <= |Queue(s, place)| && cr !in Queue(s, place)[..index]
    case Acquiring(id, cr, place, index) =>
      && Removing(s, t, id, cr, place) && Lookup(s.writers, place) == Some(t)
      && ElementAt(Queue(s, place), index) == Some(cr)
    case Erasing(id, cr, place, index) =>
      && Removing(s, t, id, cr, place) && Lookup(s.writers, place) == Some(t)
      && ElementAt(Queue(s, place), index) == Some(cr) && Flag(s, t, cr)
    case Letting(id, cr, place) =>
      && Mutex(s, t, id) && IsRoutine(s, cr, id) && Lookup(s.registry, id) == None && Lookup(s.placed, id) == None
      && Lookup(s.writers, place) == Some(t) && Flag(s, t, cr) && s.routines[cr].stopped
    case Unlocking(id, place, ok) =>
      && Mutex(s, t, id) && Lookup(s.registry, id) == None && Lookup(s.placed, id) == None
      && Lookup(s.writers, place) == Some(t) && ok
    case RemoveReturns(id, _) => Mutex(s, t, id) && Lookup(s.registry, id) == None && Lookup(s.placed, id) == None
    case Between(_) => true
    case EnteringQueue(_, prio) => prio < MAX_PRIO
    case Scanning(group, prio, _) => prio < MAX_PRIO && (Place(group, prio), t) in s.readers
    case Updating(group, prio, _, cr) => prio < MAX_PRIO && (Place(group, prio), t) in s.readers && Flag(s, t, cr)
    case Passing(group, prio, _, cr) => prio < MAX_PRIO && (Place(group, prio), t) in s.readers && Flag(s, t, cr)
    case Leaving(group, prio, cr) => (Place(group, prio), t) in s.readers && OwnsReady(s, t, cr)
    case Resuming(_, cr) => OwnsReady(s, t, cr)
    case Entering(_, cr) => OwnsReady(s, t, cr)
    case Running(_, cr) => OwnsReady(s, t, cr)
    case Releasing(_, cr) => Flag(s, t, cr)
  }

  ghost predicate PcsInv(s: State) {
    forall t {:trigger PcInv(s, t, s.threads[t])} | 0 <= t < |s.threads| :: PcInv(s, t, s.threads[t])
  }

  /** While nobody holds the mutex of an id, what is registered is what is placed. */
  ghost predicate IdsInv(s: State) {
    forall id: nat {:trigger Lookup(s.registry, id)} | id !in s.mutexes ::
      Lookup(s.registry, id) == Lookup(s.placed, id)
  }

  ghost predicate SectionsInv(s: State) {
    forall place, u {:trigger (place, u) in s.readers} | (place, u) in s.readers :: place !in s.writers
  }

  ghost predicate Inv(s: State) {
    QueuesInv(s) && PcsInv(s) && IdsInv(s) && SectionsInv(s)
  }

  lemma InitInv(s: State)
    requires Init(s)
    ensures Inv(s)
  {
    assert forall place :: Queue(s, place) == [];
  }

  // ----- every step keeps the invariant -----

  /** What a step of thread t leaves to the others: the coroutines they have flagged, the ids and
      the queues they have locked. */
  ghost predicate Respects(s: State, t: nat, s': State) {
    && t < |s.threads| && |s'.threads| == |s.threads| && |s.routines| <= |s'.routines|
    && s'.confs == s.confs && s'.defaultGroup == s.defaultGroup
    && NewAsWished(s, s')
    && (forall u {:trigger s'.threads[u]} | 0 <= u < |s.threads| && u != t :: s'.threads[u] == s.threads[u])
    && (forall i {:trigger s'.routines[i]} {:trigger s.routines[i]} | 0 <= i < |s.routines| ::
          RoutineKept(s, t, s.routines[i], s'.routines[i]))
    && (forall id: nat {:trigger IdKept(s, t, s', id)} {:trigger Lookup(s.mutexes, id)} :: IdKept(s, t, s', id))
    && (forall place {:trigger PlaceKept(s, t, s', place)} {:trigger Lookup(s.writers, place)} :: PlaceKept(s, t, s', place))
    && (forall place, u {:trigger (place, u) in s'.readers} {:trigger (place, u) in s.readers} |
          u != t :: (place, u) in s.readers <==> (place, u) in s'.readers)
  }

  ghost predicate RoutineKept(s: State, t: nat, r: Routine, r': Routine) {
    && r'.id == r.id && r'.name == r.name && r'.wished == r.wished && (r.stopped ==> r'.stopped)
    && (r.state == FINISHED ==> r'.state == FINISHED)
    && (if r.owner == None || r.owner == Some(t) then r'.owner == None || r'.owner == Some(t)
        else r'.owner == r.owner && r'.state == r.state)
    && (r'.place == r.place || (Mutex(s, t, r.id) && r'.place == Configured(s, r)))
  }

  /** A new coroutine is at the priority it was constructed with. */
  ghost predicate NewAsWished(s: State, s': State) {
    forall i {:trigger s'.routines[i]} | |s.routines| <= i < |s'.routines| ::
      s'.routines[i].place.prio == s'.routines[i].wished && s'.routines[i].owner == None
  }

  ghost predicate IdKept(s: State, t: nat, s': State, id: nat) {
    var owner := Lookup(s.mutexes, id);
    if owner == None || owner == Some(t) then Lookup(s'.mutexes, id) == None || Lookup(s'.mutexes, id) == Some(t)
    else
      && Lookup(s'.mutexes, id) == owner
      && Lookup(s'.registry, id) == Lookup(s.registry, id) && Lookup(s'.placed, id) == Lookup(s.placed, id)
  }

  ghost predicate PlaceKept(s: State, t: nat, s': State, place: Place) {
    var owner := Lookup(s.writers, place);
    if owner == None || owner == Some(t) then Lookup(s'.writers, place) == None || Lookup(s'.writers, place) == Some(t)
    else Lookup(s'.writers, place) == owner && Queue(s', place) == Queue(s, place)
  }

  ghost predicate Handles(pc: Pc, cr: nat) {
    && (pc.Updating? || pc.Passing? || pc.Leaving? || pc.Resuming? || pc.Entering? || pc.Running? || pc.Releasing?)
    && pc.cr == cr
  }

  /** A processor gets hold of a coroutine only by taking it from the queue it scans. */
  ghost predicate HandlesMore(s: State, pc: Pc, pc': Pc) {
    forall cr {:trigger Handles(pc', cr)} | Handles(pc', cr) ::
      Handles(pc, cr) || (pc.Scanning? && cr in Queue(s, Place(pc.group, pc.prio)))
  }

  /** A queue gets a coroutine only by an Enqueue, at its end, and loses one only by a removal. */
  ghost predicate QueueMoves(queue: seq<nat>, pc: Pc, queue': seq<nat>) {
    || queue' == queue
    || (pc.Enqueueing? && queue' == queue + [pc.cr])
    || (pc.Erasing? && pc.index < |queue| && queue[pc.index] == pc.cr
        && queue' == queue[..pc.index] + queue[pc.index + 1..])
  }

  ghost predicate QueuesMore(s: State, pc: Pc, s': State) {
    forall place {:trigger Queue(s', place)} :: QueueMoves(Queue(s, place), pc, Queue(s', place))
  }

  /** Nobody changes a queue while a reader is inside its section. */
  ghost predicate ReadersSeeNoChange(s: State, s': State) {
    forall place, u {:trigger (place, u) in s.readers} | (place, u) in s.readers ::
      Queue(s', place) == Queue(s, place)
  }

  /** RemoveCRoutine's answer is false only when the id was not registered as it looked. */
  ghost predicate AnswersRemove(s: State, pc: Pc, pc': Pc) {
    pc'.RemoveReturns? ==>
      if pc'.ok then pc.Unlocking? else pc == Unregistering(pc'.id) && pc'.id !in s.registry
  }

  /** A processor gets behind the look at the stop flag only while the coroutine is not stopped. */
  ghost predicate PassesUnstopped(s: State, pc: Pc, pc': Pc) {
    pc'.Entering? ==>
      pc == pc' || (pc == Resuming(pc'.group, pc'.cr) && pc.cr < |s.routines| && !s.routines[pc.cr].stopped)
  }

  /** DispatchTask's answer is true when the coroutine has just been put into its queue, and false
      only when the id was registered as it looked. */
  ghost predicate AnswersDispatch(s: State, pc: Pc, s': State, pc': Pc) {
    pc'.DispatchReturns? ==>
      && pc'.cr < |s.routines|
      && if pc'.ok then pc == Enqueueing(pc'.id, pc'.cr) && pc'.cr in Queue(s', s.routines[pc'.cr].place)
         else pc == Registering(pc'.id, pc'.cr) && pc'.id in s.registry
  }

  ghost predicate Change(s: State, t: nat, s': State) {
    && Respects(s, t, s') && QueuesMore(s, s.threads[t], s') && PassesUnstopped(s, s.threads[t], s'.threads[t])
    && HandlesMore(s, s.threads[t], s'.threads[t]) && AnswersRemove(s, s.threads[t], s'.threads[t])
    && ReadersSeeNoChange(s, s') && AnswersDispatch(s, s.threads[t], s', s'.threads[t])
  }

  lemma PcKept(s: State, t: nat, s': State, u: nat, pc: Pc)
    requires Respects(s, t, s') && u != t && PcInv(s, u, pc)
    ensures PcInv(s', u, pc)
  {
  }

  lemma PcsKept(s: State, t: nat, s': State)
    requires PcsInv(s) && Respects(s, t, s') && PcInv(s', t, s'.threads[t])
    ensures PcsInv(s')
  {
    forall u | 0 <= u < |s'.threads|
      ensures PcInv(s', u, s'.threads[u])
    {
      if u != t {
        assert PcInv(s, u, s.threads[u]);
        PcKept(s, t, s', u, s.threads[u]);
      }
    }
  }

  /** Ids, names and places of the coroutines stay; new ones may appear. */
  ghost predicate SamePlaces(s: State, s': State) {
    && |s.routines| <= |s'.routines| && s'.confs == s.confs && s'.defaultGroup == s.defaultGroup
    && (forall i {:trigger s'.routines[i]} {:trigger s.routines[i]} | 0 <= i < |s.routines| ::
          && s'.routines[i].id == s.routines[i].id && s'.routines[i].name == s.routines[i].name
          && s'.routines[i].place == s.routines[i].place)
  }

  lemma QueuesKept(s: State, s': State)
    requires QueuesInv(s) && SamePlaces(s, s') && s'.queues == s.queues && s'.placed == s.placed
    ensures QueuesInv(s')
  {
    forall place
      ensures QueueInv(s', place)
    {
      assert QueueInv(s, place);
      forall cr | cr in Queue(s', place)
        ensures EntryInv(s', place, cr)
      {
        assert EntryInv(s, place, cr);
      }
    }
    forall id: nat
      ensures PlacedInv(s', id)
    {
      assert PlacedInv(s, id);
    }
  }

  /** Thread t moves on; it may change the coroutines whose flag is clear or its own, but not
      their ids and places, and may enter or leave a queue as a reader. */
  ghost predicate Quiet(s: State, t: nat, s': State) {
    && t < |s.threads| && |s'.threads| == |s.threads| && |s'.routines| == |s.routines|
    && s' == s.(routines := s'.routines, readers := s'.readers, threads := s.threads[t := s'.threads[t]])
    && (forall i {:trigger s'.routines[i]} {:trigger s.routines[i]} | 0 <= i < |s.routines| ::
          s'.routines[i].place == s.routines[i].place && RoutineKept(s, t, s.routines[i], s'.routines[i]))
    && (forall place, u {:trigger (place, u) in s'.readers} {:trigger (place, u) in s.readers} ::
          ((place, u) in s'.readers <==> (place, u) in s.readers) || (u == t && place !in s.writers))
  }

  lemma QuietInv(s: State, t: nat, s': State)
    requires Inv(s) && Quiet(s, t, s') && PcInv(s', t, s'.threads[t])
    ensures Inv(s') && Respects(s, t, s') && ReadersSeeNoChange(s, s')
  {
    QueuesKept(s, s');
    PcsKept(s, t, s');
    forall place, u | (place, u) in s'.readers
      ensures place !in s'.writers
    {
      assert (place, u) in s.readers || place !in s.writers;
    }
    forall id: nat | id !in s'.mutexes
      ensures Lookup(s'.registry, id) == Lookup(s'.placed, id)
    {
      assert Lookup(s.registry, id) == Lookup(s.placed, id);
    }
  }

  lemma ScanInv(s: State, t: nat, s': State)
    requires Inv(s) && t < |s.threads| && (StartScan(s, t, s') || EnterQueue(s, t, s') || EndScan(s, t, s'))
    ensures Inv(s') && Change(s, t, s')
  {
    assert PcInv(s, t, s.threads[t]);
    QuietInv(s, t, s');
  }

  lemma TryInv(s: State, t: nat, s': State)
    requires Inv(s) && t < |s.threads| && (Take(s, t, s') || Skip(s, t, s'))
    ensures Inv(s') && Change(s, t, s')
  {
    assert PcInv(s, t, s.threads[t]);
    QuietInv(s, t, s');
  }

  lemma LookInv(s: State, t: nat, s': State)
    requires Inv(s) && t < |s.threads| && (Choose(s, t, s') || Pass(s, t, s'))
    ensures Inv(s') && Change(s, t, s')
  {
    assert PcInv(s, t, s.threads[t]);
    QuietInv(s, t, s');
  }

  lemma MoveOnInv(s: State, t: nat, s': State)
    requires Inv(s) && t < |s.threads| && (PassOn(s, t, s') || Leave(s, t, s'))
    ensures Inv(s') && Change(s, t, s')
  {
    assert PcInv(s, t, s.threads[t]);
    QuietInv(s, t, s');
  }

  lemma ResumeInv(s: State, t: nat, s': State)
    requires Inv(s) && t < |s.threads| && (Finish(s, t, s') || PassStop(s, t, s'))
    ensures Inv(s') && Change(s, t, s')
  {
    assert PcInv(s, t, s.threads[t]);
    QuietInv(s, t, s');
  }

  lemma EnterInv(s: State, t: nat, s': State)
    requires Inv(s) && t < |s.threads| && (Refuse(s, t, s') || SwapIn(s, t, s'))
    ensures Inv(s') && Change(s, t, s')
  {
    assert PcInv(s, t, s.threads[t]);
    QuietInv(s, t, s');
  }

  lemma GiveBackInv(s: State, t: nat, s': State)
    requires Inv(s) && t < |s.threads| && (Yield(s, t, s') || Release(s, t, s'))
    ensures Inv(s') && Change(s, t, s')
  {
    assert PcInv(s, t, s.threads[t]);
    QuietInv(s, t, s');
  }

  lemma ProcessorStepInv(s: State, t: nat, s': State)
    requires Inv(s) && ProcessorStep(s, t, s')
    ensures Inv(s') && Change(s, t, s')
  {
    if StartScan(s, t, s') || EnterQueue(s, t, s') || EndScan(s, t, s') {
      ScanInv(s, t, s');
    } else if Take(s, t, s') || Skip(s, t, s') {
      TryInv(s, t, s');
    } else if Choose(s, t, s') || Pass(s, t, s') {
      LookInv(s, t, s');
    } else if PassOn(s, t, s') || Leave(s, t, s') {
      MoveOnInv(s, t, s');
    } else if Finish(s, t, s') || PassStop(s, t, s') {
      ResumeInv(s, t, s');
    } else if Refuse(s, t, s') || SwapIn(s, t, s') {
      EnterInv(s, t, s');
    } else {
      GiveBackInv(s, t, s');
    }
  }

  lemma BeginOrRefuseInv(s: State, t: nat, s': State)
    requires Inv(s) && t < |s.threads| && (Begin(s, t, s') || RefuseDispatch(s, t, s') || RefuseRemove(s, t, s'))
    ensures Inv(s') && Change(s, t, s')
  {
    assert PcInv(s, t, s.threads[t]);
    QuietInv(s, t, s');
  }

  lemma AcquireRemovedInv(s: State, t: nat, s': State)
    requires Inv(s) && t < |s.threads| && AcquireRemoved(s, t, s')
    ensures Inv(s') && Change(s, t, s')
  {
    assert PcInv(s, t, s.threads[t]);
    QuietInv(s, t, s');
  }

  lemma ReleaseRemovedInv(s: State, t: nat, s': State)
    requires Inv(s) && t < |s.threads| && ReleaseRemoved(s, t, s')
    ensures Inv(s') && Change(s, t, s')
  {
    assert PcInv(s, t, s.threads[t]);
    QuietInv(s, t, s');
  }

  lemma CreateInv(s: State, t: nat, s': State)
    requires Inv(s) && t < |s.threads| && Create(s, t, s')
    ensures Inv(s') && Change(s, t, s')
  {
    QueuesKept(s, s');
    PcsKept(s, t, s');
  }

  lemma LockIdInv(s: State, t: nat, s': State)
    requires Inv(s) && t < |s.threads| && LockId(s, t, s')
    ensures Inv(s') && Change(s, t, s')
  {
    assert PcInv(s, t, s.threads[t]);
    assert Lookup(s.registry, s.threads[t].id) == Lookup(s.placed, s.threads[t].id);
    QueuesKept(s, s');
    PcsKept(s, t, s');
  }

  /** A step under the mutex of an id changes what is registered and placed under no other id. */
  lemma IdsKept(s: State, s': State, id: nat)
    requires IdsInv(s) && id in s.mutexes && s'.mutexes == s.mutexes
    requires forall other: nat {:trigger Lookup(s'.registry, other)} | other != id ::
               Lookup(s'.registry, other) == Lookup(s.registry, other)
               && Lookup(s'.placed, other) == Lookup(s.placed, other)
    ensures IdsInv(s')
  {
    forall other: nat | other !in s'.mutexes
      ensures Lookup(s'.registry, other) == Lookup(s'.placed, other)
    {
      assert Lookup(s.registry, other) == Lookup(s.placed, other);
    }
  }

  lemma RegisterInv(s: State, t: nat, s': State)
    requires Inv(s) && t < |s.threads| && Register(s, t, s')
    ensures Inv(s') && Change(s, t, s')
  {
    assert PcInv(s, t, s.threads[t]);
    IdsKept(s, s', s.threads[t].id);
    QueuesKept(s, s');
    PcsKept(s, t, s');
  }

  lemma UnregisterInv(s: State, t: nat, s': State)
    requires Inv(s) && t < |s.threads| && Unregister(s, t, s')
    ensures Inv(s') && Change(s, t, s')
  {
    assert PcInv(s, t, s.threads[t]);
    assert PlacedInv(s, s.threads[t].id);
    IdsKept(s, s', s.threads[t].id);
    QueuesKept(s, s');
    PcsKept(s, t, s');
  }

  lemma LockQueueInv(s: State, t: nat, s': State)
    requires Inv(s) && t < |s.threads| && LockQueue(s, t, s')
    ensures Inv(s') && Change(s, t, s')
  {
    assert PcInv(s, t, s.threads[t]);
    QueuesKept(s, s');
    PcsKept(s, t, s');
  }

  lemma UnlockQueueInv(s: State, t: nat, s': State)
    requires Inv(s) && t < |s.threads| && UnlockQueue(s, t, s')
    ensures Inv(s') && Change(s, t, s')
  {
    assert PcInv(s, t, s.threads[t]);
    QueuesKept(s, s');
    PcsKept(s, t, s');
  }

  lemma ReturnInv(s: State, t: nat, s': State)
    requires Inv(s) && t < |s.threads| && Return(s, t, s')
    ensures Inv(s') && Change(s, t, s')
  {
    assert PcInv(s, t, s.threads[t]);
    QueuesKept(s, s');
    PcsKept(s, t, s');
  }

  /** The coroutine being removed is in its queue, and it is what the search finds. */
  lemma SearchFinds(s: State, t: nat)
    requires Inv(s) && t < |s.threads| && s.threads[t].Searching?
    ensures var pc := s.threads[t];
      && pc.index < |Queue(s, pc.place)|
      && (IsRoutine(s, Queue(s, pc.place)[pc.index], pc.id) <==> Queue(s, pc.place)[pc.index] == pc.cr)
  {
    var Searching(id, cr, place, index) := s.threads[t];
    assert PcInv(s, t, s.threads[t]);
    assert PlacedInv(s, id) && QueueInv(s, place);
    assert Queue(s, place)[..|Queue(s, place)|] == Queue(s, place);
    assert EntryInv(s, place, Queue(s, place)[index]);
  }

  lemma SearchInv(s: State, t: nat, s': State)
    requires Inv(s) && t < |s.threads| && Search(s, t, s')
    ensures Inv(s') && Change(s, t, s')
  {
    var Searching(id, cr, place, index) := s.threads[t];
    assert PcInv(s, t, s.threads[t]);
    SearchFinds(s, t);
    var queue := Queue(s, place);
    assert queue[..index + 1] == queue[..index] + [queue[index]];
    QuietInv(s, t, s');
  }

  lemma FindInv(s: State, t: nat, s': State)
    requires Inv(s) && t < |s.threads| && Find(s, t, s')
    ensures Inv(s') && Change(s, t, s')
  {
    assert PcInv(s, t, s.threads[t]);
    SearchFinds(s, t);
    QuietInv(s, t, s');
  }

  lemma ConfigureInv(s: State, t: nat, s': State)
    requires Inv(s) && t < |s.threads| && Configure(s, t, s')
    ensures Inv(s') && Change(s, t, s')
  {
    var Configuring(id, cr) := s.threads[t];
    assert PcInv(s, t, s.threads[t]);
    PcsKept(s, t, s');
    IdsKept(s, s', id);
    forall place
      ensures QueueInv(s', place)
    {
      assert QueueInv(s, place);
      forall other | other in Queue(s', place)
        ensures EntryInv(s', place, other)
      {
        assert EntryInv(s, place, other);
      }
    }
    forall i: nat
      ensures PlacedInv(s', i)
    {
      assert PlacedInv(s, i);
    }
  }

  lemma EnqueueChange(s: State, t: nat, s': State)
    requires Inv(s) && t < |s.threads| && Enqueue(s, t, s')
    ensures Change(s, t, s') && PcInv(s', t, s'.threads[t])
  {
    assert PcInv(s, t, s.threads[t]);
  }

  lemma EnqueueQueues(s: State, t: nat, s': State)
    requires Inv(s) && t < |s.threads| && Enqueue(s, t, s')
    ensures QueuesInv(s')
  {
    var Enqueueing(id, cr) := s.threads[t];
    assert PcInv(s, t, s.threads[t]);
    forall place
      ensures QueueInv(s', place)
    {
      assert QueueInv(s, place);
      assert cr in Queue(s, place) ==> EntryInv(s, place, cr);
      forall other | other in Queue(s', place)
        ensures EntryInv(s', place, other)
      {
        assert other != cr ==> EntryInv(s, place, other);
      }
    }
    forall i: nat
      ensures PlacedInv(s', i)
    {
      assert PlacedInv(s, i);
    }
  }

  lemma EnqueueInv(s: State, t: nat, s': State)
    requires Inv(s) && t < |s.threads| && Enqueue(s, t, s')
    ensures Inv(s') && Change(s, t, s')
  {
    EnqueueChange(s, t, s');
    EnqueueQueues(s, t, s');
    PcsKept(s, t, s');
    assert PcInv(s, t, s.threads[t]);
    IdsKept(s, s', s.threads[t].id);
  }

  lemma EraseChange(s: State, t: nat, s': State)
    requires Inv(s) && t < |s.threads| && Erase(s, t, s')
    ensures Change(s, t, s') && PcInv(s', t, s'.threads[t])
  {
    assert PcInv(s, t, s.threads[t]);
  }

  lemma EraseQueues(s: State, t: nat, s': State)
    requires Inv(s) && t < |s.threads| && Erase(s, t, s')
    ensures QueuesInv(s')
  {
    var Erasing(id, cr, place, index) := s.threads[t];
    assert PcInv(s, t, s.threads[t]);
    var queue := Queue(s, place);
    assert QueueInv(s, place);
    assert forall other :: other in Queue(s', place) <==> other in queue && other != cr;
    forall p
      ensures QueueInv(s', p)
    {
      assert QueueInv(s, p);
      forall other | other in Queue(s', p)
        ensures EntryInv(s', p, other)
      {
        assert EntryInv(s, p, other);
      }
    }
    forall i: nat
      ensures PlacedInv(s', i)
    {
      assert PlacedInv(s, i);
    }
  }

  lemma EraseInv(s: State, t: nat, s': State)
    requires Inv(s) && t < |s.threads| && Erase(s, t, s')
    ensures Inv(s') && Change(s, t, s')
  {
    EraseChange(s, t, s');
    EraseQueues(s, t, s');
    PcsKept(s, t, s');
    assert PcInv(s, t, s.threads[t]);
    IdsKept(s, s', s.threads[t].id);
  }

  lemma ClientStepInv(s: State, t: nat, s': State)
    requires Inv(s) && ClientStep(s, t, s')
    ensures Inv(s') && Change(s, t, s')
  {
    if Create(s, t, s') {
      CreateInv(s, t, s');
    } else if Begin(s, t, s') || RefuseDispatch(s, t, s') || RefuseRemove(s, t, s') {
      BeginOrRefuseInv(s, t, s');
    } else if LockId(s, t, s') {
      LockIdInv(s, t, s');
    } else if Register(s, t, s') {
      RegisterInv(s, t, s');
    } else if Configure(s, t, s') {
      ConfigureInv(s, t, s');
    } else if Enqueue(s, t, s') {
      EnqueueInv(s, t, s');
    } else if Unregister(s, t, s') {
      UnregisterInv(s, t, s');
    } else if LockQueue(s, t, s') {
      LockQueueInv(s, t, s');
    } else if UnlockQueue(s, t, s') {
      UnlockQueueInv(s, t, s');
    } else if Return(s, t, s') {
      ReturnInv(s, t, s');
    } else if Search(s, t, s') {
      SearchInv(s, t, s');
    } else if Find(s, t, s') {
      FindInv(s, t, s');
    } else if AcquireRemoved(s, t, s') {
      AcquireRemovedInv(s, t, s');
    } else if ReleaseRemoved(s, t, s') {
      ReleaseRemovedInv(s, t, s');
    } else if Erase(s, t, s') {
      EraseInv(s, t, s');
    } else {
      SearchFinds(s, t);
    }
  }

  lemma StepInv(s: State, t: nat, s': State)
    requires Inv(s) && Step(s, t, s')
    ensures Inv(s') && Change(s, t, s')
  {
    if ClientStep(s, t, s') {
      ClientStepInv(s, t, s');
    } else {
      ProcessorStepInv(s, t, s');
    }
  }
}
