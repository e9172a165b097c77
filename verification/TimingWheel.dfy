/** The two-level timing wheel of cyber/timer/timing_wheel.cc.

    TickFunc repeats: Tick (hand out the current work bucket), sleep, advance the cursors.  Here
    Tick and the advance are two atomic methods, and a whole AddTask, from its load of the cursor to
    the filing of the task, may run between any two of them.
    A bucket holds weak pointers; `TimerTask.alive` says whether the task still exists. */
module TimingWheels {
  import opened TimerTasks

  const WORK_WHEEL_SIZE: nat := 512
  const ASSISTANT_WHEEL_SIZE: nat := 64

  /** GetWorkWheelIndex and GetAssistantWheelIndex mask with size - 1; that is the remainder. */
  lemma MaskIsRemainder(index: bv64)
    ensures index & 511 == index % 512
    ensures index & 63 == index % 64
  {
  }

  function GetWorkWheelIndex(index: nat): nat { index % WORK_WHEEL_SIZE }

  function GetAssistantWheelIndex(index: nat): nat { index % ASSISTANT_WHEEL_SIZE }

  // ----- what the wheels stand for: a table of deadlines -----

  /** `now` counts cursor advances; `ticked` says that the current bucket was already handed out;
      `due` gives the advance count at which each waiting task is handed out if it is alive then. */
  datatype Deadlines<T> = Deadlines(now: nat, ticked: bool, due: map<T, nat>)

  /** How many times the assistant wheel turns over before the target slot comes around. */
  function Laps(cursor: nat, delay: nat): nat {
    if cursor + delay < WORK_WHEEL_SIZE then 0
    else ((cursor + delay) / WORK_WHEEL_SIZE - 1) / ASSISTANT_WHEEL_SIZE
  }

  /** The number of advances after which a task added with this delay really is handed out. */
  function FireDelay(cursor: nat, delay: nat): (d: nat)
    requires cursor < WORK_WHEEL_SIZE && delay >= 1
    ensures d >= 1
  {
    if WORK_WHEEL_SIZE < delay && cursor + delay < 2 * WORK_WHEEL_SIZE then
      delay - WORK_WHEEL_SIZE
    else
      delay - TIMER_MAX_INTERVAL_MS * Laps(cursor, delay)
  }

  function Add<T>(s: Deadlines<T>, task: T, delay: nat): Deadlines<T>
    requires delay >= 1
  {
    s.(due := s.due[task := s.now + FireDelay(s.now % WORK_WHEEL_SIZE, delay)])
  }

  ghost function HandedOut<T>(s: Deadlines<T>): set<T> {
    set t | t in s.due && s.due[t] == s.now
  }

  ghost function Ticked<T>(s: Deadlines<T>): Deadlines<T> {
    s.(ticked := true, due := map t | t in s.due && s.due[t] != s.now :: s.due[t])
  }

  /** The cursor moves on; the wheel may notice that some tasks no longer exist. */
  ghost function Advanced<T>(s: Deadlines<T>, gone: set<T>): Deadlines<T> {
    Deadlines(s.now + 1, false, map t | t in s.due && t !in gone :: s.due[t])
  }

  // ----- runs: any interleaving of AddTask, Tick and the cursor advance -----

  datatype Op<T> = AddOp(task: T, delay: nat) | TickOp | AdvanceOp(gone: set<T>)

  /** A task is added only while it is not waiting, and the cursor advances only after a Tick. */
  ghost predicate Enabled<T>(s: Deadlines<T>, op: Op<T>) {
    match op
    case AddOp(task, delay) => task !in s.due && delay >= 1
    case TickOp => true
    case AdvanceOp(_) => s.ticked
  }

  ghost function Apply<T>(s: Deadlines<T>, op: Op<T>): Deadlines<T>
    requires Enabled(s, op)
  {
    match op
    case AddOp(task, delay) => Add(s, task, delay)
    case TickOp => Ticked(s)
    case AdvanceOp(gone) => Advanced(s, gone)
  }

  ghost predicate LegalRun<T>(s: Deadlines<T>, ops: seq<Op<T>>)
    decreases |ops|
  {
    ops == [] || (Enabled(s, ops[0]) && LegalRun(Apply(s, ops[0]), ops[1..]))
  }

  ghost function After<T>(s: Deadlines<T>, ops: seq<Op<T>>): Deadlines<T>
    requires LegalRun(s, ops)
    decreases |ops|
  {
    if ops == [] then s else After(Apply(s, ops[0]), ops[1..])
  }

  /** The advance counts at which the run hands out the task, oldest first. */
  ghost function HandOutTimes<T>(s: Deadlines<T>, ops: seq<Op<T>>, task: T): seq<nat>
    requires LegalRun(s, ops)
    decreases |ops|
  {
    if ops == [] then []
    else (if ops[0].TickOp? && task in HandedOut(s) then [s.now] else [])
         + HandOutTimes(Apply(s, ops[0]), ops[1..], task)
  }

  ghost predicate LeavesAlone<T>(op: Op<T>, task: T) {
    && (op.AddOp? ==> op.task != task)
    && (op.AdvanceOp? ==> task !in op.gone)
  }

  /** No deadline has been missed. */
  ghost predicate WellTimed<T>(s: Deadlines<T>) {
    forall t | t in s.due :: s.now + (if s.ticked then 1 else 0) <= s.due[t]
  }

  lemma ApplyWellTimed<T>(s: Deadlines<T>, op: Op<T>)
    requires WellTimed(s) && Enabled(s, op)
    ensures WellTimed(Apply(s, op))
  {
  }

  /** While nobody adds it again or drops it, a waiting task is handed out exactly once, by the
      Tick at its deadline, whatever else is added in the meantime. */
  lemma {:induction false} HandedOutOnceAtDeadline<T>(s: Deadlines<T>, ops: seq<Op<T>>, task: T)
    requires WellTimed(s) && LegalRun(s, ops) && task in s.due
    requires forall op | op in ops :: LeavesAlone(op, task)
    ensures var s' := After(s, ops);
      var passed := s'.now > s.due[task] || (s'.now == s.due[task] && s'.ticked);
      && HandOutTimes(s, ops, task) == (if passed then [s.due[task]] else [])
      && (task in s'.due <==> !passed)
    decreases |ops|
  {
    if ops != [] {
      var s1 := Apply(s, ops[0]);
      ApplyWellTimed(s, ops[0]);
      assert LeavesAlone(ops[0], task);
      if task in s1.due {
        HandedOutOnceAtDeadline(s1, ops[1..], task);
      } else {
        NeverHandedOut(s1, ops[1..], task);
      }
    }
  }

  /** A task that is not waiting and is not added is not handed out, and time does not go back. */
  lemma {:induction false} NeverHandedOut<T>(s: Deadlines<T>, ops: seq<Op<T>>, task: T)
    requires LegalRun(s, ops) && task !in s.due
    requires forall op | op in ops :: LeavesAlone(op, task)
    ensures var s' := After(s, ops);
      && HandOutTimes(s, ops, task) == [] && task !in s'.due
      && (s'.now > s.now || (s'.now == s.now && (s.ticked ==> s'.ticked)))
    decreases |ops|
  {
    if ops != [] {
      assert LeavesAlone(ops[0], task);
      NeverHandedOut(Apply(s, ops[0]), ops[1..], task);
    }
  }

  /** The contract of the wheel: once added, a live task is handed out at exactly one Tick.  That
      Tick comes `delay` advances later outside the early window, and `delay - 512` advances
      later inside it. */
  lemma AddedTaskIsHandedOut<T>(s: Deadlines<T>, task: T, delay: nat, ops: seq<Op<T>>)
    requires WellTimed(s) && task !in s.due && 1 <= delay <= TIMER_MAX_INTERVAL_MS
    requires LegalRun(Add(s, task, delay), ops) && forall op | op in ops :: LeavesAlone(op, task)
    requires After(Add(s, task, delay), ops).now > s.now + delay
    ensures var cursor := s.now % WORK_WHEEL_SIZE;
      HandOutTimes(Add(s, task, delay), ops, task)
      == [s.now + if delay <= 512 || cursor + delay >= 1024 then delay else delay - 512]
  {
    var s1 := Add(s, task, delay);
    ApplyWellTimed(s, AddOp(task, delay));
    OnTimeIff(s.now % WORK_WHEEL_SIZE, delay);
    HandedOutOnceAtDeadline(s1, ops, task);
  }

  /** A task is on time exactly outside the early window 512 < delay < 1024 - cursor and when the
      delay fits the two wheels; the second condition always holds for delays up to 32768. */
  lemma OnTimeIff(cursor: nat, delay: nat)
    requires cursor < WORK_WHEEL_SIZE && delay >= 1
    ensures FireDelay(cursor, delay) == delay <==>
            (delay <= 512 || cursor + delay >= 1024) && cursor + delay < 65 * 512
    ensures delay <= TIMER_MAX_INTERVAL_MS ==> cursor + delay < 65 * 512
    ensures 512 < delay && cursor + delay < 1024 ==> FireDelay(cursor, delay) == delay - 512
  {
    if cursor + delay >= 512 {
      var k := (cursor + delay) / 512;
      assert k >= 65 <==> (k - 1) / 64 >= 1;
    }
  }

  // ----- the wheels -----

  ghost predicate NoDuplicates<T>(s: seq<T>) {
    forall i, j | 0 <= i < j < |s| :: s[i] != s[j]
  }

  /** A snapshot of all buckets, the 512 work buckets before the 64 assistant buckets, with the
      place and the deadline of every waiting task, at tick 512 * round + cursor.  While
      assistant bucket `cascading` is being cascaded its tasks are due in the round that starts
      now; otherwise `cascading` is -1. */
  datatype Layout<T> = Layout(round: nat, cursor: nat, buckets: seq<seq<T>>,
                              place: map<T, nat>, due: map<T, nat>, cascading: int)

  ghost function Now<T>(l: Layout<T>): nat {
    512 * l.round + l.cursor
  }

  /** The number of assistant ticks until assistant bucket j is cascaded. */
  ghost function TicksTo(round: nat, j: int): int {
    if j > round % 64 then j - round % 64 else j - round % 64 + 64
  }

  /** The first tick at which a task of bucket b can be due; the last is 511 ticks later in the
      assistant wheel and the same one in the work wheel. */
  ghost function FirstDue<T>(l: Layout<T>, b: int): int {
    if b < 512 then 512 * (l.round + if b >= l.cursor then 0 else 1) + b
    else if b - 512 == l.cascading then Now(l)
    else 512 * (l.round + TicksTo(l.round, b - 512))
  }

  ghost predicate DueIn<T>(l: Layout<T>, b: int, deadline: int) {
    FirstDue(l, b) <= deadline <= FirstDue(l, b) + if b < 512 then 0 else 511
  }

  ghost predicate PlaceOk<T>(l: Layout<T>, t: T) {
    t in l.place && l.place[t] < |l.buckets| && t in l.buckets[l.place[t]]
  }

  ghost predicate BucketOk<T>(l: Layout<T>, b: int) {
    && 0 <= b < |l.buckets| && NoDuplicates(l.buckets[b])
    && (forall t | t in l.buckets[b] :: t in l.place && l.place[t] == b)
  }

  /** The buckets hold exactly the waiting tasks, each once and where `place` says. */
  ghost predicate Located<T>(l: Layout<T>) {
    && |l.buckets| == 576
    && (forall t {:trigger PlaceOk(l, t)} | t in l.place :: PlaceOk(l, t))
    && (forall b {:trigger BucketOk(l, b)} | 0 <= b < 576 :: BucketOk(l, b))
  }

  ghost predicate DueOk<T>(l: Layout<T>, t: T) {
    t in l.place && t in l.due && DueIn(l, l.place[t], l.due[t])
  }

  /** Every place fits the deadline of its task. */
  ghost predicate Timely<T>(l: Layout<T>) {
    && l.cursor < 512 && l.due.Keys == l.place.Keys
    && (forall t {:trigger DueOk(l, t)} | t in l.due :: DueOk(l, t))
  }

  ghost predicate AllEmpty<T>(buckets: seq<seq<T>>) {
    forall b | 0 <= b < |buckets| :: buckets[b] == []
  }

  lemma EmptyBucketsExist<T>(n: nat)
    ensures exists buckets: seq<seq<T>> :: |buckets| == n && AllEmpty(buckets)
  {
    var buckets: seq<seq<T>> := seq(n, _ => []);
    assert AllEmpty(buckets);
  }

  ghost function NothingWaiting<T>(): (l: Layout<T>)
    ensures Sound(l)
  {
    EmptyBucketsExist<T>(576);
    var buckets: seq<seq<T>> :| |buckets| == 576 && AllEmpty(buckets);
    var l := Layout(0, 0, buckets, map[], map[], -1);
    l
  }

  ghost predicate Sound<T>(l: Layout<T>) {
    Located(l) && Timely(l)
  }

  type SoundLayout<T> = l: Layout<T> | Sound(l) ghost witness NothingWaiting<T>()

  lemma EmptySnapshot<T>() returns (l: SoundLayout<T>)
    ensures l.round == 0 && l.cursor == 0 && l.cascading == -1 && l.due == map[]
    ensures |l.buckets| == 576 && AllEmpty(l.buckets)
  {
    EmptyBucketsExist<T>(576);
    var buckets: seq<seq<T>> :| |buckets| == 576 && AllEmpty(buckets);
    l := Layout(0, 0, buckets, map[], map[], -1);
  }

  /** The snapshot after filing task t under bucket b. */
  ghost function Filed<T>(l: Layout<T>, t: T, b: nat, deadline: nat): Layout<T>
    requires b < |l.buckets|
  {
    l.(buckets := l.buckets[b := l.buckets[b] + [t]], place := l.place[t := b], due := l.due[t := deadline])
  }

  lemma FiledIsSound<T>(l: SoundLayout<T>, t: T, b: nat, deadline: nat)
    requires t !in l.due && b < 576 && DueIn(l, b, deadline)
    ensures Sound(Filed(l, t, b, deadline))
  {
    var l' := Filed(l, t, b, deadline);
    forall u | u in l'.place
      ensures PlaceOk(l', u) && DueOk(l', u)
    {
      if u != t {
        assert PlaceOk(l, u) && DueOk(l, u);
      }
    }
    forall c | 0 <= c < 576
      ensures BucketOk(l', c)
    {
      assert BucketOk(l, c);
    }
  }

  ghost function Without<K, V>(m: map<K, V>, gone: seq<K>): map<K, V> {
    map k | k in m && k !in gone :: m[k]
  }

  /** The snapshot without the first n tasks of bucket b. */
  ghost function Cut<T>(l: Layout<T>, b: nat, n: nat): Layout<T>
    requires b < |l.buckets| && n <= |l.buckets[b]|
  {
    l.(buckets := l.buckets[b := l.buckets[b][n..]],
       place := Without(l.place, l.buckets[b][..n]), due := Without(l.due, l.buckets[b][..n]))
  }

  lemma HeadAndRestDiffer<T>(s: seq<T>, n: nat, t: T)
    requires NoDuplicates(s) && n <= |s|
    ensures t in s <==> t in s[..n] || t in s[n..]
    ensures !(t in s[..n] && t in s[n..])
    ensures NoDuplicates(s[n..])
  {
    assert s == s[..n] + s[n..];
  }

  lemma CutIsSound<T>(l: SoundLayout<T>, b: nat, n: nat)
    requires b < 576 && n <= |l.buckets[b]|
    ensures Sound(Cut(l, b, n))
  {
    var l' := Cut(l, b, n);
    assert BucketOk(l, b);
    forall t | t in l'.place
      ensures PlaceOk(l', t) && DueOk(l', t)
    {
      assert PlaceOk(l, t) && DueOk(l, t);
      HeadAndRestDiffer(l.buckets[b], n, t);
    }
    forall c | 0 <= c < 576
      ensures BucketOk(l', c)
    {
      assert BucketOk(l, c);
      forall t | t in l'.buckets[c]
        ensures t in l'.place && l'.place[t] == c
      {
        HeadAndRestDiffer(l.buckets[b], n, t);
      }
    }
  }

  /** The current work bucket holds exactly the tasks that are due now. */
  lemma CurrentBucketIsDueNow<T>(l: SoundLayout<T>)
    requires l.cascading == -1
    ensures NoDuplicates(l.buckets[l.cursor])
    ensures forall t :: t in l.buckets[l.cursor] <==> t in l.due && l.due[t] == Now(l)
  {
    assert BucketOk(l, l.cursor);
    forall t
      ensures t in l.buckets[l.cursor] <==> t in l.due && l.due[t] == Now(l)
    {
      if t in l.due {
        assert PlaceOk(l, t) && DueOk(l, t);
      }
    }
  }

  lemma CurrentTaken<T>(l: SoundLayout<T>)
    requires l.cascading == -1
    ensures var l' := Cut(l, l.cursor, |l.buckets[l.cursor]|);
      && l'.buckets == l.buckets[l.cursor := []]
      && l'.due == map t | t in l.due && l.due[t] != Now(l) :: l.due[t]
  {
    var n := |l.buckets[l.cursor]|;
    CurrentBucketIsDueNow(l);
    assert l.buckets[l.cursor][..n] == l.buckets[l.cursor] && l.buckets[l.cursor][n..] == [];
  }

  /** The front task of the bucket being cascaded belongs into the work bucket of its remainder. */
  lemma FrontOfCascade<T>(l: SoundLayout<T>, j: nat)
    requires j < 64 && l.buckets[512 + j] != []
    ensures var t := l.buckets[512 + j][0];
      && t in l.due && l.place[t] == 512 + j
      && t !in Cut(l, 512 + j, 1).due
      && (l.cursor == 0 && j == l.cascading ==> DueIn(l, l.due[t] % 512, l.due[t]))
  {
    var t := l.buckets[512 + j][0];
    assert BucketOk(l, 512 + j);
    assert t in l.buckets[512 + j];
    assert DueOk(l, t);
    assert t == l.buckets[512 + j][..1][0];
  }

  ghost function NextTick<T>(l: Layout<T>): Layout<T> {
    if l.cursor == 511 then l.(round := l.round + 1, cursor := 0, cascading := (l.round + 1) % 64)
    else l.(cursor := l.cursor + 1)
  }

  lemma NextTickKeepsDue<T>(l: Layout<T>, b: nat)
    requires l.cascading == -1 && l.cursor < 512 && b != l.cursor && b < 576
    ensures FirstDue(NextTick(l), b) == FirstDue(l, b)
  {
    assert (l.round + 1) % 64 == if l.round % 64 == 63 then 0 else l.round % 64 + 1;
  }

  lemma NextTickIsSound<T>(l: SoundLayout<T>)
    requires l.cascading == -1 && l.buckets[l.cursor] == []
    ensures Sound(NextTick(l)) && Now(NextTick(l)) == Now(l) + 1
  {
    var l' := NextTick(l);
    forall t | t in l.due
      ensures PlaceOk(l', t) && DueOk(l', t)
    {
      assert PlaceOk(l, t) && DueOk(l, t);
      NextTickKeepsDue(l, l.place[t]);
    }
    forall c | 0 <= c < 576
      ensures BucketOk(l', c)
    {
      assert BucketOk(l, c);
    }
  }

  lemma CascadeEndIsSound<T>(l: SoundLayout<T>)
    requires 0 <= l.cascading < 64 && l.buckets[512 + l.cascading] == []
    ensures Sound(l.(cascading := -1))
  {
    var l' := l.(cascading := -1);
    forall t | t in l.due
      ensures PlaceOk(l', t) && DueOk(l', t)
    {
      assert PlaceOk(l, t) && DueOk(l, t);
    }
    forall c | 0 <= c < 576
      ensures BucketOk(l', c)
    {
      assert BucketOk(l, c);
    }
  }

  lemma NothingPlaced<T>(l: SoundLayout<T>, b: nat)
    requires b < 576 && l.buckets[b] == []
    ensures forall t | t in l.due :: l.place[t] != b
  {
    forall t | t in l.due
      ensures l.place[t] != b
    {
      assert DueOk(l, t) && PlaceOk(l, t);
    }
  }

  function Alive(tasks: seq<TimerTask>): (r: seq<TimerTask>)
    reads tasks
    ensures forall t | t in tasks :: t in r <==> t.alive
    ensures forall t | t in r :: t in tasks
  {
    if tasks == [] then []
    else Alive(tasks[..|tasks| - 1]) + if tasks[|tasks| - 1].alive then [tasks[|tasks| - 1]] else []
  }

  /** Live tasks stay in their order. */
  lemma {:induction false} AliveKeepsOrder(tasks: seq<TimerTask>, i: nat, j: nat) returns (k: nat, l: nat)
    requires i < j < |tasks| && tasks[i].alive && tasks[j].alive
    ensures k < l < |Alive(tasks)| && Alive(tasks)[k] == tasks[i] && Alive(tasks)[l] == tasks[j]
  {
    var rest := tasks[..|tasks| - 1];
    if j < |tasks| - 1 {
      k, l := AliveKeepsOrder(rest, i, j);
    } else {
      k :| 0 <= k < |Alive(rest)| && Alive(rest)[k] == rest[i];
      l := |Alive(rest)|;
    }
  }

  class TimingWheel {
    const workWheel: array<seq<TimerTask>>
    const assistantWheel: array<seq<TimerTask>>
    var currentWorkWheelIndex: nat
    var currentAssistantWheelIndex: nat

    ghost var layout: SoundLayout<TimerTask>
    ghost var ticked: bool

    ghost predicate Consistent()
      reads this, workWheel, assistantWheel, layout.due.Keys
    {
      && workWheel.Length == WORK_WHEEL_SIZE && assistantWheel.Length == ASSISTANT_WHEEL_SIZE
      && workWheel != assistantWheel
      && currentWorkWheelIndex == layout.cursor && currentAssistantWheelIndex == layout.round % 64
      && workWheel[..] == layout.buckets[..512] && assistantWheel[..] == layout.buckets[512..]
      && (forall t | t in layout.due && layout.place[t] >= 512 :: t.remainderIntervalMs == layout.due[t] % 512)
      && (ticked ==> layout.buckets[layout.cursor] == [])
    }

    ghost predicate Valid()
      reads this, workWheel, assistantWheel, layout.due.Keys
    {
      Consistent() && layout.cascading == -1
    }

    /** The deadlines that the two wheels stand for. */
    ghost function Waiting(): Deadlines<TimerTask>
      reads this
    {
      Deadlines(Now(layout), ticked, layout.due)
    }

    ghost predicate OnlyDeadDropped(before: map<TimerTask, nat>, after: map<TimerTask, nat>)
      reads before.Keys
    {
      && (forall t | t in after :: t in before && after[t] == before[t])
      && (forall t | t in before && t.alive :: t in after)
    }

    constructor ()
      ensures Valid() && Waiting() == Deadlines(0, false, map[])
      ensures fresh(workWheel) && fresh(assistantWheel)
    {
      workWheel := new seq<TimerTask>[WORK_WHEEL_SIZE];
      assistantWheel := new seq<TimerTask>[ASSISTANT_WHEEL_SIZE];
      currentWorkWheelIndex := 0;
      currentAssistantWheelIndex := 0;
      ghost var nothing: SoundLayout<TimerTask> := EmptySnapshot();
      layout := nothing;
      ticked := false;
      new;
      forall i | 0 <= i < WORK_WHEEL_SIZE {
        workWheel[i] := [];
      }
      forall j | 0 <= j < ASSISTANT_WHEEL_SIZE {
        assistantWheel[j] := [];
      }
    }

    /** Files the task under its bucket.  The callers never add a task that is still waiting. */
    method AddTask(task: TimerTask)
      requires Valid() && task !in Waiting().due
      requires task.nextFireDurationMs >= 1
      modifies this`layout, workWheel, assistantWheel, task`remainderIntervalMs
      ensures Valid() && Waiting() == Add(old(Waiting()), task, task.nextFireDurationMs)
    {
      PlacedOnTime(layout, task.nextFireDurationMs);
      CursorIsNowModulo(layout);
      ghost var deadline := Now(layout) + FireDelay(layout.cursor, task.nextFireDurationMs);
      var workWheelIndex := currentWorkWheelIndex + task.nextFireDurationMs;
      if workWheelIndex >= WORK_WHEEL_SIZE {
        var realWorkWheelIndex := GetWorkWheelIndex(workWheelIndex);
        task.remainderIntervalMs := realWorkWheelIndex;
        var assistantTicks := workWheelIndex / WORK_WHEEL_SIZE;
        if assistantTicks == 1 && realWorkWheelIndex != currentWorkWheelIndex {
          AddToWorkBucket(realWorkWheelIndex, task, deadline);
        } else {
          var assistantWheelIndex := GetAssistantWheelIndex(currentAssistantWheelIndex + assistantTicks);
          AddToAssistantBucket(assistantWheelIndex, task, deadline);
        }
      } else {
        AddToWorkBucket(workWheelIndex, task, deadline);
      }
    }

    method AddToWorkBucket(index: nat, task: TimerTask, ghost deadline: nat)
      requires Consistent() && task !in layout.due
      requires index < 512 && DueIn(layout, index, deadline) && (ticked ==> index != layout.cursor)
      modifies this`layout, workWheel
      ensures Consistent() && layout == Filed(old(layout), task, index, deadline)
      ensures workWheel[index] == old(workWheel[index]) + [task]
    {
      FiledIsSound(layout, task, index, deadline);
      layout := Filed(layout, task, index, deadline);
      workWheel[index] := workWheel[index] + [task];
    }

    method AddToAssistantBucket(index: nat, task: TimerTask, ghost deadline: nat)
      requires Consistent() && task !in layout.due
      requires index < 64 && DueIn(layout, 512 + index, deadline) && task.remainderIntervalMs == deadline % 512
      modifies this`layout, assistantWheel
      ensures Consistent() && layout == Filed(old(layout), task, 512 + index, deadline)
      ensures assistantWheel[index] == old(assistantWheel[index]) + [task]
    {
      FiledIsSound(layout, task, 512 + index, deadline);
      layout := Filed(layout, task, 512 + index, deadline);
      assistantWheel[index] := assistantWheel[index] + [task];
    }

    /** Hands out the live tasks of the current bucket, in order, and empties the bucket. */
    method Tick() returns (fired: seq<TimerTask>)
      requires Valid()
      modifies this`layout, this`ticked, workWheel
      ensures Valid() && Waiting() == Ticked(old(Waiting()))
      ensures NoDuplicates(fired)
      ensures forall t :: t in fired <==> t in HandedOut(old(Waiting())) && t.alive
    {
      CurrentBucketIsDueNow(layout);
      CurrentTaken(layout);
      fired := TakeCurrentBucket();
    }

    method TakeCurrentBucket() returns (fired: seq<TimerTask>)
      requires Valid() && NoDuplicates(layout.buckets[layout.cursor])
      requires Cut(layout, layout.cursor, |layout.buckets[layout.cursor]|).buckets == layout.buckets[layout.cursor := []]
      modifies this`layout, this`ticked, workWheel
      ensures Valid() && ticked && NoDuplicates(fired)
      ensures layout == Cut(old(layout), old(layout).cursor, |old(layout).buckets[old(layout).cursor]|)
      ensures fired == Alive(old(layout).buckets[old(layout).cursor])
    {
      fired := EmptyCurrentBucket();
      CutIsSound(layout, layout.cursor, |layout.buckets[layout.cursor]|);
      layout := Cut(layout, layout.cursor, |layout.buckets[layout.cursor]|);
      ticked := true;
    }

    method EmptyCurrentBucket() returns (fired: seq<TimerTask>)
      requires currentWorkWheelIndex < workWheel.Length
      requires NoDuplicates(workWheel[currentWorkWheelIndex])
      modifies workWheel
      ensures workWheel[..] == old(workWheel[..])[currentWorkWheelIndex := []]
      ensures fired == Alive(old(workWheel[currentWorkWheelIndex])) && NoDuplicates(fired)
    {
      fired := [];
      ghost var bucket := workWheel[currentWorkWheelIndex];
      ghost var handled := 0;
      while workWheel[currentWorkWheelIndex] != []
        invariant 0 <= handled <= |bucket|
        invariant workWheel[..] == old(workWheel[..])[currentWorkWheelIndex := bucket[handled..]]
        invariant fired == Alive(bucket[..handled]) && NoDuplicates(fired)
        decreases |workWheel[currentWorkWheelIndex]|
      {
        var task := workWheel[currentWorkWheelIndex][0];
        assert bucket[..handled + 1][..handled] == bucket[..handled];
        assert task == bucket[handled] && task !in bucket[..handled];
        assert bucket[handled..][1..] == bucket[handled + 1..];
        if task.alive {
          fired := fired + [task];
        }
        workWheel[currentWorkWheelIndex] := workWheel[currentWorkWheelIndex][1..];
        handled := handled + 1;
      }
      assert bucket[..handled] == bucket;
    }

    /** Moves the live tasks of one assistant bucket to the work wheel and empties the bucket. */
    method Cascade(assistantWheelIndex: nat)
      requires assistantWheelIndex < 64 && Consistent() && layout.cascading == assistantWheelIndex
      requires layout.cursor == 0 && !ticked
      modifies this`layout, workWheel, assistantWheel
      ensures Valid() && Now(layout) == old(Now(layout)) && OnlyDeadDropped(old(layout).due, layout.due)
      ensures forall t | t in layout.due && !t.alive :: old(layout).place[t] != 512 + assistantWheelIndex
    {
      while assistantWheel[assistantWheelIndex] != []
        invariant Consistent() && Now(layout) == old(Now(layout)) && layout.cascading == assistantWheelIndex
        invariant OnlyDeadDropped(old(layout).due, layout.due)
        invariant forall t | t in layout.due && !t.alive :: layout.place[t] == old(layout).place[t]
        decreases |assistantWheel[assistantWheelIndex]|
      {
        CascadeFront(assistantWheelIndex);
      }
      NothingPlaced(layout, 512 + assistantWheelIndex);
      CascadeEndIsSound(layout);
      layout := layout.(cascading := -1);
    }

    /** One round of the loop in Cascade. */
    method CascadeFront(assistantWheelIndex: nat)
      requires assistantWheelIndex < 64 && Consistent() && layout.cascading == assistantWheelIndex
      requires layout.cursor == 0 && !ticked && assistantWheel[assistantWheelIndex] != []
      modifies this`layout, workWheel, assistantWheel
      ensures Consistent() && Now(layout) == old(Now(layout)) && layout.cascading == assistantWheelIndex
      ensures assistantWheel[assistantWheelIndex] == old(assistantWheel[assistantWheelIndex])[1..]
      ensures OnlyDeadDropped(old(layout).due, layout.due)
      ensures forall t | t in layout.due && !t.alive :: layout.place[t] == old(layout).place[t]
    {
      FrontOfCascade(layout, assistantWheelIndex);
      ghost var before := layout;
      var task := PopFront(assistantWheelIndex);
      if task.alive {
        AddToWorkBucket(task.remainderIntervalMs, task, before.due[task]);
      }
    }

    method PopFront(index: nat) returns (task: TimerTask)
      requires index < 64 && Consistent() && assistantWheel[index] != []
      modifies this`layout, assistantWheel
      ensures Consistent() && task == old(layout).buckets[512 + index][0]
      ensures layout == Cut(old(layout), 512 + index, 1)
      ensures task in old(layout).due && old(layout).place[task] == 512 + index
      ensures task.remainderIntervalMs == old(layout).due[task] % 512
      ensures assistantWheel[index] == old(assistantWheel[index])[1..]
    {
      task := assistantWheel[index][0];
      FrontOfCascade(layout, index);
      CutIsSound(layout, 512 + index, 1);
      layout := Cut(layout, 512 + index, 1);
      assistantWheel[index] := assistantWheel[index][1..];
    }

    /** The second half of a TickFunc iteration: the cursors move on, and a cursor that
        starts a new round cascades the next assistant bucket. */
    method Advance()
      requires Valid() && ticked
      modifies this, workWheel, assistantWheel
      ensures Valid() && OnlyDeadDropped(old(Waiting()).due, Waiting().due)
      ensures Waiting() == Advanced(old(Waiting()), old(layout).due.Keys - layout.due.Keys)
    {
      MoveCursors();
      if currentWorkWheelIndex == 0 {
        Cascade(currentAssistantWheelIndex);
      }
    }

    lemma WaitingIsWellTimed()
      requires Valid()
      ensures WellTimed(Waiting())
    {
      forall t | t in layout.due
        ensures Now(layout) + (if ticked then 1 else 0) <= layout.due[t]
      {
        assert PlaceOk(layout, t) && DueOk(layout, t);
      }
    }

    /** `rounds` iterations of the TickFunc loop without any AddTask in between: iteration k hands
        out exactly the live tasks that are due k advances after the start. */
    method TickFunc(rounds: nat) returns (handed: seq<seq<TimerTask>>)
      requires Valid() && !ticked
      modifies this, workWheel, assistantWheel
      ensures Valid() && !ticked && Waiting().now == old(Waiting()).now + rounds
      ensures |handed| == rounds
      ensures forall k, t | 0 <= k < rounds && t in handed[k] :: t in old(Waiting()).due
      ensures forall k, t | 0 <= k < rounds && t in old(Waiting()).due ::
                t in handed[k] <==> t.alive && old(Waiting()).due[t] == old(Waiting()).now + k
    {
      handed := [];
      ghost var start := Waiting();
      while |handed| < rounds
        invariant |handed| <= rounds
        invariant Valid() && !ticked && Waiting().now == start.now + |handed|
        invariant forall k, t | 0 <= k < |handed| && t in handed[k] :: t in start.due
        invariant forall k, t | 0 <= k < |handed| && t in start.due ::
                    t in handed[k] <==> t.alive && start.due[t] == start.now + k
        invariant forall t | t in Waiting().due :: t in start.due && Waiting().due[t] == start.due[t]
        invariant forall t | t in start.due && t.alive && start.due[t] >= Waiting().now :: t in Waiting().due
      {
        var fired := Tick();
        Advance();
        handed := handed + [fired];
      }
    }

    method MoveCursors()
      requires Valid() && ticked
      modifies `currentWorkWheelIndex, `currentAssistantWheelIndex, `layout, `ticked
      ensures Consistent() && !ticked && layout == NextTick(old(layout))
    {
      NextTickIsSound(layout);
      layout := NextTick(layout);
      ticked := false;
      currentWorkWheelIndex := GetWorkWheelIndex(currentWorkWheelIndex + 1);
      if currentWorkWheelIndex == 0 {
        currentAssistantWheelIndex := GetAssistantWheelIndex(currentAssistantWheelIndex + 1);
      }
    }
  }

  /** The bucket that AddTask chooses fits the deadline now + FireDelay. */
  lemma PlacedOnTime<T>(l: Layout<T>, delay: nat)
    requires l.cursor < 512 && delay >= 1 && l.cascading == -1
    ensures
      var deadline := Now(l) + FireDelay(l.cursor, delay);
      var index, ticks := l.cursor + delay, (l.cursor + delay) / 512;
      if index < 512 then
        DueIn(l, index, deadline) && index != l.cursor
      else if ticks == 1 && index % 512 != l.cursor then
        DueIn(l, index % 512, deadline)
      else
        DueIn(l, 512 + (l.round % 64 + ticks) % 64, deadline) && deadline % 512 == index % 512
  {
    if l.cursor + delay >= 512 {
      var ticks := (l.cursor + delay) / 512;
      SlotComesAround(l.round, ticks);
      if !(ticks == 1 && (l.cursor + delay) % 512 != l.cursor) {
        assert FireDelay(l.cursor, delay) == delay - 32768 * ((ticks - 1) / 64);
      }
    }
  }

  /** The assistant slot `ticks` ahead, counted round the wheel, comes around after that many
      assistant ticks less the full turns. */
  lemma SlotComesAround(round: nat, ticks: nat)
    requires ticks >= 1
    ensures TicksTo(round, (round % 64 + ticks) % 64) == ticks - 64 * ((ticks - 1) / 64)
  {
    var a, laps, rest := round % 64, (ticks - 1) / 64, (ticks - 1) % 64;
    assert a + ticks == 64 * laps + (a + rest + 1);
    assert (a + ticks) % 64 == if a + rest + 1 >= 64 then a + rest - 63 else a + rest + 1;
  }

  lemma CursorIsNowModulo<T>(l: Layout<T>)
    requires l.cursor < 512
    ensures Now(l) % 512 == l.cursor
  {
  }
}
