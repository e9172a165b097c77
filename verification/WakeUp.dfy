/** The data wake-up protocol: DataDispatcher::Dispatch fills a cache and then notifies, the
    notify ends in SchedulerClassic::NotifyProcessor, processors scan for READY routines, and the
    routine itself runs the loop of CreateRoutineFactory.

    The model follows one routine and its DataVisitor, with any number of producers and any number
    of processors.  Each access to the state, the update flag or the lock flag is one step; the
    memory is sequentially consistent.  The handler may yield in any state but FINISHED: it may sleep,
    wait for I/O, hang up or just make way. */
module WakeUp {
  import opened DataChannel

  datatype RoutineState = READY | SLEEP | IO_WAIT | DATA_WAIT

  /** Where the routine's own code stands; it moves only while a processor runs it. */
  datatype Point =
    | LoopTop
    | BeforeFetch
    | InHandler
    | FetchFailed
    | SwapOut(next: Point)

  datatype Processor = Scanning | Updating | Waking | Checking | Resuming | Running | Releasing

  datatype Producer = Outside | Filled | ReadingState | ReadingStateAgain | SettingFlag

  /** `flag` is true when updated_ is clear, that is, when an update is pending.  `missed`
      records that, since the last TryFetch, a notify found no callback registered. */
  datatype State = State(
    size: nat, visitor: VisitorState, registered: bool,
    state: RoutineState, flag: bool, locked: bool, at: Point,
    processors: seq<Processor>, producers: seq<Producer>, missed: bool)

  /** A TryFetch would succeed now. */
  ghost predicate Unread(s: State) {
    FetchPosition(s.visitor.cursor, s.visitor.filled, s.size).Some?
  }

  // ----- the steps -----

  ghost predicate Init(s: State) {
    && s.visitor == VisitorState(0, 0, []) && s.state == READY && !s.flag && !s.locked && s.at == LoopTop
    && !s.registered && !s.missed
    && (forall p | 0 <= p < |s.processors| :: s.processors[p] == Scanning)
    && (forall q | 0 <= q < |s.producers| :: s.producers[q] == Outside)
  }

  ghost function Proc(s: State, p: nat, pc: Processor): State
    requires p < |s.processors|
  {
    s.(processors := s.processors[p := pc])
  }

  ghost function Prod(s: State, q: nat, pc: Producer): State
    requires q < |s.producers|
  {
    s.(producers := s.producers[q := pc])
  }

  /** Scheduler::CreateTask registers the callback some time after it dispatched the routine. */
  ghost predicate Register(s: State, s': State) {
    s' == s.(registered := true)
  }

  /** A producer inside Dispatch and NotifyProcessor. */
  ghost predicate ProducerStep(s: State, q: nat, s': State) {
    && q < |s.producers|
    && match s.producers[q]
       case Outside => s' == Prod(s, q, Filled).(visitor := VisitorStep(s.size, s.visitor, FillOp))
       case Filled =>
         if s.registered then s' == Prod(s, q, ReadingState) else s' == Prod(s, q, Outside).(missed := true)
       case ReadingState => s' == Prod(s, q, if s.state == DATA_WAIT then SettingFlag else ReadingStateAgain)
       case ReadingStateAgain => s' == Prod(s, q, if s.state == IO_WAIT then SettingFlag else Outside)
       case SettingFlag => s' == Prod(s, q, Outside).(flag := true)
  }

  /** A processor inside NextRoutine, UpdateState, Resume and Release, up to the swap. */
  ghost predicate ProcessorStep(s: State, p: nat, s': State) {
    && p < |s.processors|
    && match s.processors[p]
       case Scanning => !s.locked && s' == Proc(s, p, Updating).(locked := true)
       case Updating =>
         || (s.state == SLEEP && s' == Proc(s, p, Checking).(state := READY))
         || s' == Proc(s, p, if s.flag then Waking else Checking).(flag := false)
       case Waking =>
         s' == Proc(s, p, Checking).(state := if s.state == DATA_WAIT || s.state == IO_WAIT then READY else s.state)
       case Checking => s' == Proc(s, p, if s.state == READY then Resuming else Releasing)
       case Resuming => s' == Proc(s, p, if s.state == READY then Running else Releasing)
       case Running => RoutineStep(s, p, s')
       case Releasing => s' == Proc(s, p, Scanning).(locked := false)
  }

  /** The routine loop, executed by processor p. */
  ghost predicate RoutineStep(s: State, p: nat, s': State)
    requires p < |s.processors|
  {
    match s.at
    case LoopTop => s' == s.(state := DATA_WAIT, at := BeforeFetch)
    case BeforeFetch =>
      s' == s.(visitor := VisitorStep(s.size, s.visitor, FetchOp), missed := false,
               at := if Unread(s) then InHandler else FetchFailed)
    case InHandler =>
      || s' == s.(state := READY, at := SwapOut(LoopTop))
      || s' == s.(state := s'.state, at := SwapOut(InHandler))
    case FetchFailed => s' == Proc(s, p, Releasing).(at := LoopTop)
    case SwapOut(next) => s' == Proc(s, p, Releasing).(at := next)
  }

  ghost predicate Next(s: State, s': State) {
    || Register(s, s')
    || (exists q: nat :: ProducerStep(s, q, s'))
    || (exists p: nat :: ProcessorStep(s, p, s'))
  }

  // ----- the invariant -----

  /** Processor p owns the routine: it took the lock flag and has not released it. */
  ghost predicate Holds(s: State, p: int) {
    0 <= p < |s.processors| && s.processors[p] != Scanning
  }

  ghost predicate Runs(s: State, p: int) {
    0 <= p < |s.processors| && s.processors[p] == Running
  }

  ghost predicate IsRunning(s: State) {
    exists p :: Runs(s, p)
  }

  ghost predicate Exclusive(s: State) {
    && (forall p, q | Holds(s, p) && Holds(s, q) :: p == q)
    && (s.locked <==> exists p :: Holds(s, p))
  }

  /** The state word always matches the point the routine stands at. */
  ghost predicate PointInv(s: State) {
    match s.at
    case LoopTop => s.state == READY || (s.state == DATA_WAIT && !IsRunning(s))
    case BeforeFetch => s.state == DATA_WAIT && IsRunning(s)
    case InHandler => true
    case FetchFailed => s.state == DATA_WAIT && IsRunning(s)
    case SwapOut(next) => IsRunning(s) && (next == InHandler || (next == LoopTop && s.state == READY))
  }

  /** A processor took the pending flag and is about to turn a waiting state into READY. */
  ghost predicate IsWaking(s: State) {
    exists p :: 0 <= p < |s.processors| && s.processors[p] == Waking
  }

  /** The routine is about to call TryFetch, or nothing more than scans of the processors is needed
      for it to do so. */
  ghost predicate WillFetch(s: State) {
    s.flag || s.state == READY || IsWaking(s) || s.at == BeforeFetch || s.at == SwapOut(LoopTop)
  }

  /** The handler is not done: it may wait for an event of its own, and when it returns the routine
      yields in READY, whatever happened to the flag in between. */
  ghost predicate InsideHandler(s: State) {
    s.at == InHandler || s.at == SwapOut(InHandler)
  }

  /** A producer has filled the cache and its notify is still on the way to the flag. */
  ghost predicate NotifyInFlight(s: State) {
    exists q :: 0 <= q < |s.producers| && Notifying(s.producers[q])
  }

  ghost predicate Notifying(pc: Producer) {
    pc.Filled? || pc.ReadingState? || pc.SettingFlag?
  }

  ghost predicate NothingLost(s: State) {
    Unread(s) ==> WillFetch(s) || InsideHandler(s) || NotifyInFlight(s) || s.missed
  }

  ghost predicate Inv(s: State) {
    Exclusive(s) && PointInv(s) && NothingLost(s) && s.visitor.cursor <= s.visitor.filled + 1
  }

  lemma InitInv(s: State)
    requires Init(s)
    ensures Inv(s)
  {
  }

  /** Only the processors decide who owns and who runs the routine. */
  lemma SameProcessors(s: State, s': State)
    requires Exclusive(s) && PointInv(s)
    requires s'.processors == s.processors && s'.locked == s.locked && s'.state == s.state && s'.at == s.at
    ensures Exclusive(s') && PointInv(s') && (IsWaking(s') <==> IsWaking(s))
  {
    assert forall p :: Holds(s', p) <==> Holds(s, p);
    assert forall p :: Runs(s', p) <==> Runs(s, p);
  }

  lemma ProducerStepInv(s: State, q: nat, s': State)
    requires Inv(s) && ProducerStep(s, q, s')
    ensures Inv(s')
  {
    SameProcessors(s, s');
    NotifyMovesOn(s, q, s');
  }

  lemma NotifyMovesOn(s: State, q: nat, s': State)
    requires PointInv(s) && NothingLost(s) && ProducerStep(s, q, s')
    requires IsWaking(s') <==> IsWaking(s)
    ensures NothingLost(s')
  {
    assert s'.at == s.at && s'.state == s.state && (s.flag ==> s'.flag);
    if Notifying(s'.producers[q]) {
      assert NotifyInFlight(s');
    } else if NotifyInFlight(s) {
      var r :| 0 <= r < |s.producers| && Notifying(s.producers[r]);
      assert r != q ==> Notifying(s'.producers[r]);
    }
  }

  /** A step of the owner p, or of a processor that takes the free lock flag, keeps ownership. */
  lemma OwnerMoves(s: State, p: nat, s': State)
    requires Exclusive(s) && p < |s.processors| && (s.locked ==> Holds(s, p))
    requires |s'.processors| == |s.processors| && s'.processors == s.processors[p := s'.processors[p]]
    requires s'.locked <==> Holds(s', p)
    ensures Exclusive(s')
    ensures IsRunning(s') <==> Runs(s', p)
    ensures IsRunning(s) <==> Runs(s, p)
    ensures IsWaking(s') <==> s'.processors[p] == Waking
    ensures IsWaking(s) <==> s.processors[p] == Waking
  {
    forall r | r != p
      ensures !Holds(s, r) && !Holds(s', r)
    {
      assert 0 <= r < |s.processors| ==> s'.processors[r] == s.processors[r];
      assert Holds(s, r) ==> s.locked;
    }
    assert forall r | 0 <= r < |s.processors| && s.processors[r] != Scanning :: Holds(s, r);
    assert forall r | 0 <= r < |s.processors| && s'.processors[r] != Scanning :: Holds(s', r);
  }

  /** The steps of a processor that takes up, examines or gives back the routine. */
  lemma ScanStepInv(s: State, p: nat, s': State)
    requires Inv(s) && ProcessorStep(s, p, s') && s.processors[p] != Running
    ensures Inv(s')
  {
    assert s.processors[p] != Scanning ==> Holds(s, p);
    OwnerMoves(s, p, s');
    assert s'.producers == s.producers;
    assert NotifyInFlight(s') <==> NotifyInFlight(s);
  }

  lemma RunStepInv(s: State, p: nat, s': State)
    requires Inv(s) && ProcessorStep(s, p, s') && s.processors[p] == Running
    ensures Inv(s')
  {
    assert Holds(s, p);
    OwnerMoves(s, p, s');
    RunStepLosesNothing(s, p, s');
  }

  lemma RunStepLosesNothing(s: State, p: nat, s': State)
    requires NothingLost(s) && PointInv(s) && ProcessorStep(s, p, s') && s.processors[p] == Running
    requires !IsWaking(s)
    ensures NothingLost(s')
  {
    assert s'.producers == s.producers;
    assert NotifyInFlight(s') <==> NotifyInFlight(s);
  }

  /** Every step keeps the invariant. */
  lemma NextInv(s: State, s': State)
    requires Inv(s) && Next(s, s')
    ensures Inv(s')
  {
    if Register(s, s') {
      SameProcessors(s, s');
    } else if exists q: nat :: ProducerStep(s, q, s') {
      var q: nat :| ProducerStep(s, q, s');
      ProducerStepInv(s, q, s');
    } else {
      var p: nat :| ProcessorStep(s, p, s');
      if s.processors[p] == Running {
        RunStepInv(s, p, s');
      } else {
        ScanStepInv(s, p, s');
      }
    }
  }

  // ----- runs -----

  /** The states of a run, oldest first. */
  ghost predicate IsRun(run: seq<State>) {
    run != [] && Init(run[0]) && forall i {:trigger Next(run[i - 1], run[i])} | 0 < i < |run| :: Next(run[i - 1], run[i])
  }

  lemma {:induction false} RunInv(run: seq<State>, i: nat)
    requires IsRun(run) && i < |run|
    ensures Inv(run[i])
  {
    if i == 0 {
      InitInv(run[0]);
    } else {
      RunInv(run, i - 1);
      NextInv(run[i - 1], run[i]);
    }
  }

  /** No lost wake-up: whenever unread data is waiting and no notify for it is still on its way,
      the routine will fetch or has not come back from its handler, unless a notify since the last
      TryFetch came before the callback was registered. */
  lemma NoLostWakeUp(run: seq<State>, i: nat)
    requires IsRun(run) && i < |run|
    requires Unread(run[i]) && !NotifyInFlight(run[i]) && !run[i].missed
    ensures WillFetch(run[i]) || InsideHandler(run[i])
  {
    RunInv(run, i);
  }

  /** At most one processor is past Acquire, hence the routine never runs twice at once. */
  lemma NeverRunsTwice(run: seq<State>, i: nat, p: nat, q: nat)
    requires IsRun(run) && i < |run| && Runs(run[i], p) && Runs(run[i], q)
    ensures p == q && run[i].locked
  {
    RunInv(run, i);
    assert Holds(run[i], p) && Holds(run[i], q);
  }

  /** What WillFetch is good for: once the routine is parked at the top of its loop, a single
      undisturbed scan by any processor resumes it. */
  lemma ScanResumes(s: State, p: nat) returns (scan: seq<State>)
    requires Inv(s) && WillFetch(s) && s.at == LoopTop && !s.locked && p < |s.processors|
    ensures scan != [] && scan[0] == s && Runs(scan[|scan| - 1], p)
    ensures forall i {:trigger scan[i]} | 0 < i < |scan| :: ProcessorStep(scan[i - 1], p, scan[i])
  {
    assert !Holds(s, p);
    if IsWaking(s) {
      var r :| 0 <= r < |s.processors| && s.processors[r] == Waking;
      assert Holds(s, r);
    }
    assert CanResume(s);
    ScanResumesIff(s, p);
    scan :| IsScan(scan, p) && scan[0] == s;
  }

  // ----- what one Dispatch does for a parked routine -----

  /** The routine waits for data at the top of its loop and no processor looks at it. */
  ghost predicate Parked(s: State) {
    s.at == LoopTop && s.state == DATA_WAIT && !s.flag && !s.locked
  }

  /** Producer q runs through Dispatch once, and nobody else moves. */
  ghost predicate IsDispatch(dispatch: seq<State>, q: nat) {
    var last := |dispatch| - 1;
    && last > 0 && q < |dispatch[0].producers|
    && (forall k {:trigger dispatch[k]} | 0 < k <= last :: ProducerStep(dispatch[k - 1], q, dispatch[k]))
    && (forall k {:trigger dispatch[k]} | 0 <= k <= last ::
          q < |dispatch[k].producers| && (dispatch[k].producers[q] == Outside <==> k == 0 || k == last))
  }

  predicate WaitsForEvent(state: RoutineState) {
    state == DATA_WAIT || state == IO_WAIT
  }

  /** A Dispatch leaves the routine's flag set if and only if it was, or the callback is registered
      and the routine waits for data or for I/O; nothing else changes but the cache. */
  lemma DispatchSteps(dispatch: seq<State>, q: nat)
    requires IsDispatch(dispatch, q)
    ensures var s, last := dispatch[0], dispatch[|dispatch| - 1];
      last == s.(visitor := VisitorStep(s.size, s.visitor, FillOp), producers := last.producers,
                 flag := s.flag || (s.registered && WaitsForEvent(s.state)), missed := s.missed || !s.registered)
      && last.producers == s.producers
  {
    var s, last := dispatch[0], |dispatch| - 1;
    assert dispatch[1].producers[q] == Filled && ProducerStep(dispatch[0], q, dispatch[1]);
    assert ProducerStep(dispatch[1], q, dispatch[2]);
    if s.registered {
      assert ProducerStep(dispatch[2], q, dispatch[3]);
      assert ProducerStep(dispatch[3], q, dispatch[4]);
      if s.state == DATA_WAIT || s.state != IO_WAIT {
        assert last == 4;
      } else {
        assert ProducerStep(dispatch[4], q, dispatch[5]);
        assert last == 5;
      }
    } else {
      assert last == 2;
    }
  }

  ghost predicate MayDispatch(s: State, q: nat) {
    q < |s.producers| && s.producers[q] == Outside
  }

  lemma UnheardDispatch(s: State, q: nat) returns (dispatch: seq<State>)
    requires MayDispatch(s, q) && !s.registered
    ensures IsDispatch(dispatch, q) && dispatch[0] == s
  {
    var s1 := Prod(s, q, Filled).(visitor := VisitorStep(s.size, s.visitor, FillOp));
    dispatch := [s, s1, Prod(s1, q, Outside).(missed := true)];
  }

  lemma DataDispatch(s: State, q: nat) returns (dispatch: seq<State>)
    requires MayDispatch(s, q) && s.registered && s.state == DATA_WAIT
    ensures IsDispatch(dispatch, q) && dispatch[0] == s
  {
    var s1 := Prod(s, q, Filled).(visitor := VisitorStep(s.size, s.visitor, FillOp));
    var s2 := Prod(s1, q, ReadingState);
    var s3 := Prod(s2, q, SettingFlag);
    dispatch := [s, s1, s2, s3, Prod(s3, q, Outside).(flag := true)];
  }

  lemma EventDispatch(s: State, q: nat) returns (dispatch: seq<State>)
    requires MayDispatch(s, q) && s.registered && s.state == IO_WAIT
    ensures IsDispatch(dispatch, q) && dispatch[0] == s
  {
    var s1 := Prod(s, q, Filled).(visitor := VisitorStep(s.size, s.visitor, FillOp));
    var s2 := Prod(s1, q, ReadingState);
    var s3 := Prod(s2, q, ReadingStateAgain);
    var s4 := Prod(s3, q, SettingFlag);
    dispatch := [s, s1, s2, s3, s4, Prod(s4, q, Outside).(flag := true)];
  }

  lemma IdleDispatch(s: State, q: nat) returns (dispatch: seq<State>)
    requires MayDispatch(s, q) && s.registered && !WaitsForEvent(s.state)
    ensures IsDispatch(dispatch, q) && dispatch[0] == s
  {
    var s1 := Prod(s, q, Filled).(visitor := VisitorStep(s.size, s.visitor, FillOp));
    var s2 := Prod(s1, q, ReadingState);
    var s3 := Prod(s2, q, ReadingStateAgain);
    dispatch := [s, s1, s2, s3, Prod(s3, q, Outside)];
  }

  /** A Dispatch never has to wait for anybody. */
  lemma DispatchCanRun(s: State, q: nat) returns (dispatch: seq<State>)
    requires MayDispatch(s, q)
    ensures IsDispatch(dispatch, q) && dispatch[0] == s
  {
    if !s.registered {
      dispatch := UnheardDispatch(s, q);
    } else if s.state == DATA_WAIT {
      dispatch := DataDispatch(s, q);
    } else if s.state == IO_WAIT {
      dispatch := EventDispatch(s, q);
    } else {
      dispatch := IdleDispatch(s, q);
    }
  }

  /** The exact condition under which a message wakes a parked routine: its one Dispatch leaves unread
      data, no notify on its way, and a routine that will fetch if and only if the callback was
      registered. */
  lemma DispatchWakesIff(run: seq<State>, i: nat, q: nat, dispatch: seq<State>)
    requires IsRun(run) && i < |run| && Parked(run[i]) && !NotifyInFlight(run[i])
    requires IsDispatch(dispatch, q) && dispatch[0] == run[i]
    ensures var last := dispatch[|dispatch| - 1];
      Unread(last) && !NotifyInFlight(last) && !last.locked && (WillFetch(last) <==> run[i].registered)
  {
    var s, last := run[i], dispatch[|dispatch| - 1];
    RunInv(run, i);
    DispatchSteps(dispatch, q);
    assert NotifyInFlight(last) <==> NotifyInFlight(s);
    assert forall p | 0 <= p < |s.processors| && s.processors[p] != Scanning :: Holds(s, p);
  }

  // ----- what one scan does with a waiting routine -----

  /** A scan can resume the routine: it is READY, it sleeps, which may be over, or it waits and an
      event is pending. */
  ghost predicate CanResume(s: State) {
    s.state == READY || s.state == SLEEP || (s.flag && WaitsForEvent(s.state))
  }

  /** Processor p goes once from Scanning to Running, and nobody else moves. */
  ghost predicate IsScan(scan: seq<State>, p: nat) {
    var last := |scan| - 1;
    && last > 0 && p < |scan[0].processors| && scan[0].processors[p] == Scanning
    && (forall k {:trigger scan[k]} | 0 < k <= last :: ProcessorStep(scan[k - 1], p, scan[k]))
    && (forall k {:trigger scan[k]} | 0 < k <= last ::
          p < |scan[k].processors| && scan[k].processors[p] != Scanning
          && (scan[k].processors[p] == Running <==> k == last))
  }

  /** UpdateState takes the pending event and with it wakes a routine that waits for one. */
  lemma ScanSteps(scan: seq<State>, p: nat)
    requires IsScan(scan, p)
    ensures CanResume(scan[0]) && !scan[0].locked
    ensures scan[|scan| - 1].locked && (scan[|scan| - 1].flag ==> scan[0].flag && scan[0].state == SLEEP)
  {
    var s := scan[0];
    assert ProcessorStep(s, p, scan[1]);
    assert scan[1] == Proc(s, p, Updating).(locked := true);
    assert ProcessorStep(scan[1], p, scan[2]) && ProcessorStep(scan[2], p, scan[3]);
    if scan[2].processors[p] == Waking {
      assert scan[3].flag == false && scan[3].processors[p] == Checking;
      CheckedAndRuns(scan, p, 3);
    } else {
      CheckedAndRuns(scan, p, 2);
    }
  }

  /** From Checking on the scan only looks at the state. */
  lemma CheckedAndRuns(scan: seq<State>, p: nat, k: nat)
    requires IsScan(scan, p) && 0 < k < |scan| && scan[k].processors[p] == Checking
    ensures var last := scan[|scan| - 1];
      scan[k].state == READY && last.locked == scan[k].locked && last.flag == scan[k].flag
  {
    assert ProcessorStep(scan[k], p, scan[k + 1]);
    assert scan[k + 1].processors[p] == Resuming || scan[k + 1].processors[p] == Releasing;
    assert ProcessorStep(scan[k + 1], p, scan[k + 2]);
  }

  lemma SleeperScan(s: State, p: nat) returns (scan: seq<State>)
    requires !s.locked && p < |s.processors| && s.processors[p] == Scanning
    requires s.state == SLEEP || (s.state == READY && !s.flag)
    ensures IsScan(scan, p) && scan[0] == s
  {
    var s1 := Proc(s, p, Updating).(locked := true);
    var s2 := Proc(s1, p, Checking).(state := READY);
    var s3 := Proc(s2, p, Resuming);
    scan := [s, s1, s2, s3, Proc(s3, p, Running)];
  }

  lemma EventScan(s: State, p: nat) returns (scan: seq<State>)
    requires !s.locked && p < |s.processors| && s.processors[p] == Scanning
    requires s.flag && (s.state == READY || WaitsForEvent(s.state))
    ensures IsScan(scan, p) && scan[0] == s
  {
    var s1 := Proc(s, p, Updating).(locked := true);
    var s2 := Proc(s1, p, Waking).(flag := false);
    var s3 := Proc(s2, p, Checking).(state := READY);
    var s4 := Proc(s3, p, Resuming);
    scan := [s, s1, s2, s3, s4, Proc(s4, p, Running)];
  }

  /** The exact condition under which an undisturbed scan by a processor resumes the routine. */
  lemma ScanResumesIff(s: State, p: nat)
    requires p < |s.processors| && s.processors[p] == Scanning
    ensures (exists scan :: IsScan(scan, p) && scan[0] == s) <==> !s.locked && CanResume(s)
  {
    if !s.locked && CanResume(s) {
      if s.state == SLEEP || (s.state == READY && !s.flag) {
        var scan := SleeperScan(s, p);
      } else {
        var scan := EventScan(s, p);
      }
    }
    if scan :| IsScan(scan, p) && scan[0] == s {
      ScanSteps(scan, p);
    }
  }

  lemma OneMore(run: seq<State>, s': State) returns (longer: seq<State>)
    requires IsRun(run) && Next(run[|run| - 1], s')
    ensures IsRun(longer) && longer[0] == run[0] && longer[|longer| - 1] == s'
  {
    longer := run + [s'];
  }

  lemma ProcessorMoves(run: seq<State>, s': State) returns (longer: seq<State>)
    requires IsRun(run) && ProcessorStep(run[|run| - 1], 0, s')
    ensures IsRun(longer) && longer[0] == run[0] && longer[|longer| - 1] == s'
  {
    longer := OneMore(run, s');
  }

  /** From the start, a processor resumes the routine and sets its state. */
  lemma FirstResume(s: State) returns (run: seq<State>)
    requires Init(s) && |s.processors| >= 1
    ensures IsRun(run) && run[0] == s
    ensures run[|run| - 1] == Proc(s, 0, Running).(locked := true, state := DATA_WAIT, at := BeforeFetch)
  {
    run := ProcessorMoves([s], Proc(s, 0, Updating).(locked := true));
    run := ProcessorMoves(run, Proc(s, 0, Checking).(locked := true));
    run := ProcessorMoves(run, Proc(s, 0, Resuming).(locked := true));
    run := ProcessorMoves(run, Proc(s, 0, Running).(locked := true));
    run := ProcessorMoves(run, Proc(s, 0, Running).(locked := true, state := DATA_WAIT, at := BeforeFetch));
  }

  /** The TryFetch finds nothing, the routine yields, and the processor releases it. */
  lemma FetchFailsAndParks(before: seq<State>) returns (run: seq<State>)
    requires IsRun(before)
    requires var s := before[|before| - 1]; Runs(s, 0) && s.at == BeforeFetch && s.visitor == VisitorState(0, 0, [])
    ensures IsRun(run) && run[0] == before[0]
    ensures var s := before[|before| - 1];
      run[|run| - 1] == Proc(s, 0, Scanning).(at := LoopTop, locked := false, missed := false)
  {
    var s := before[|before| - 1];
    run := ProcessorMoves(before, s.(at := FetchFailed, missed := false));
    run := ProcessorMoves(run, Proc(s, 0, Releasing).(at := LoopTop, missed := false));
    run := ProcessorMoves(run, Proc(s, 0, Scanning).(at := LoopTop, locked := false, missed := false));
  }

  lemma {:induction false} RunContinues(run: seq<State>, q: nat, dispatch: seq<State>) returns (longer: seq<State>)
    requires IsRun(run) && IsDispatch(dispatch, q) && dispatch[0] == run[|run| - 1]
    ensures IsRun(longer) && longer[0] == run[0] && longer[|longer| - 1] == dispatch[|dispatch| - 1]
  {
    longer := run;
    for k := 1 to |dispatch|
      invariant IsRun(longer) && longer[0] == run[0] && longer[|longer| - 1] == dispatch[k - 1]
    {
      assert ProducerStep(dispatch[k - 1], q, dispatch[k]);
      longer := OneMore(longer, dispatch[k]);
    }
  }

  /** Hence a message that is filled in and notified between the routine's first TryFetch and the
      registration of the callback leaves the routine parked with unread data, although the
      callback is registered in the end. */
  lemma MessageBeforeRegistrationIsStranded(s: State) returns (run: seq<State>)
    requires Init(s) && |s.processors| >= 1 && |s.producers| >= 1
    ensures IsRun(run) && run[0] == s
    ensures var last := run[|run| - 1];
      last.registered && Parked(last) && Unread(last) && !NotifyInFlight(last) && !WillFetch(last)
  {
    run := FirstResume(s);
    run := FetchFailsAndParks(run);
    var s0 := run[|run| - 1];
    var s1 := Prod(s0, 0, Filled).(visitor := VisitorState(1, 0, []));
    var s2 := Prod(s1, 0, Outside).(missed := true);
    DispatchWakesIff(run, |run| - 1, 0, [s0, s1, s2]);
    run := RunContinues(run, 0, [s0, s1, s2]);
    run := OneMore(run, s2.(registered := true));
    assert IsWaking(s2.(registered := true)) <==> IsWaking(s2);
  }
}
