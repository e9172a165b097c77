/** AsyncLogger: callers append to an active buffer; a second thread swaps it with a flushing buffer,
    forwards the messages to the log files and counts its rounds.

    Any number of callers run Write, Flush and Stop beside the thread.  What happens while the mutex
    is held is one step, and so is forwarding one message, flushing the files and clearing the
    flushing buffer, which the thread does without the mutex.  A waiting thread may wake up at any
    time.  The forwarded sequence is that over all log files; `synced` is how much of it was in the
    files when they were last flushed. */
module AsyncLogger {
  datatype Msg = Msg(timestamp: int, text: string, level: int)

  /** The level is read off the first character. */
  function LevelOf(text: string): (level: int)
    ensures -1 <= level <= 3
    ensures level >= 0 <==> text != "" && text[0] in "IWEF"
    ensures level >= 0 ==> "IWEF"[level] == text[0]
  {
    var first := text[..if text == "" then 0 else 1];
    if first == "F" then 3
    else if first == "E" then 2
    else if first == "W" then 1
    else if first == "I" then 0
    else -1
  }

  datatype Buffer = Buffer(messages: seq<Msg>, size: nat, flush: bool)

  const EMPTY_BUFFER := Buffer([], 0, false)

  predicate NeedsFlushOrWrite(b: Buffer) {
    b.flush || b.messages != []
  }

  datatype LoggerState = INITTED | RUNNING | STOPPED

  /** Where the logger thread stands; Forwarding(n) has forwarded n messages of its buffer. */
  datatype Thread = NotStarted | Entering | Waiting | Forwarding(next: nat) | FlushingFiles | Clearing | Counting | Exited

  /** A caller inside Flush remembers the count it found, and for the proof how many messages had
      been accepted by then. */
  datatype Caller = Outside | Flushing(origCount: nat, mark: nat) | Joining | Joined

  /** `accepted` records every message that Write has added to a buffer; `msgSize` is the size of
      a message record without its text. */
  datatype State = State(
    maxBytes: nat, msgSize: nat, state: LoggerState, active: Buffer, flushing: Buffer, flushCount: nat,
    thread: Thread, callers: seq<Caller>,
    accepted: seq<Msg>, forwarded: seq<Msg>, synced: nat)

  // ----- the steps of the callers -----

  /** The constructor's limit: two megabytes when none is given. */
  function MaxBytes(given: int): (bytes: nat)
    ensures bytes > 0
  {
    if given <= 0 then 2 * 1024 * 1024 else given
  }

  ghost predicate Init(s: State) {
    && s.maxBytes > 0
    && s.state == INITTED && s.active == EMPTY_BUFFER == s.flushing && s.flushCount == 0
    && s.thread == NotStarted && s.accepted == [] && s.forwarded == [] && s.synced == 0
    && (forall c {:trigger s.callers[c]} | 0 <= c < |s.callers| :: s.callers[c] == Outside)
  }

  ghost predicate Start(s: State, s': State) {
    s.state == INITTED && s' == s.(state := RUNNING, thread := Entering)
  }

  /** A message is dropped when the active buffer has more than half of the space, or when the
      logger does not run. */
  predicate Drops(s: State) {
    s.active.size > s.maxBytes / 2 || s.state != RUNNING
  }

  function Added(s: State, m: Msg, forceFlush: bool): Buffer {
    Buffer(s.active.messages + [m], s.active.size + s.msgSize + |m.text|, s.active.flush || forceFlush)
  }

  ghost predicate Write(s: State, timestamp: int, text: string, forceFlush: bool, s': State) {
    if Drops(s) then s' == s
    else
      var m := Msg(timestamp, text, LevelOf(text));
      s' == s.(active := Added(s, m, forceFlush), accepted := s.accepted + [m])
  }

  /** Flush sets the flag of the active buffer and waits. */
  ghost predicate StartFlush(s: State, c: nat, s': State) {
    && c < |s.callers| && s.callers[c].Outside? && s.state == RUNNING
    && s' == s.(active := s.active.(flush := true),
                callers := s.callers[c := Flushing(s.flushCount, |s.accepted|)])
  }

  /** It wakes up too early and does the same again. */
  ghost predicate FlushAgain(s: State, c: nat, s': State) {
    && c < |s.callers| && s.callers[c].Flushing?
    && s.flushCount < s.callers[c].origCount + 2 && s.state == RUNNING
    && s' == s.(active := s.active.(flush := true))
  }

  ghost predicate EndFlush(s: State, c: nat, s': State) {
    && c < |s.callers| && s.callers[c].Flushing?
    && !(s.flushCount < s.callers[c].origCount + 2 && s.state == RUNNING)
    && s' == s.(callers := s.callers[c := Outside])
  }

  ghost predicate StartStop(s: State, c: nat, s': State) {
    && c < |s.callers| && s.callers[c].Outside? && s.state == RUNNING
    && s' == s.(state := STOPPED, callers := s.callers[c := Joining])
  }

  ghost predicate Join(s: State, c: nat, s': State) {
    && c < |s.callers| && s.callers[c].Joining? && s.thread == Exited
    && s' == s.(callers := s.callers[c := Joined])
  }

  // ----- the steps of the thread -----

  /** The head of the thread's loop, with the mutex held. */
  function LoopHead(s: State): Thread {
    if s.state == RUNNING || NeedsFlushOrWrite(s.active) then Waiting else Exited
  }

  ghost predicate Enter(s: State, s': State) {
    s.thread == Entering && s' == s.(thread := LoopHead(s))
  }

  /** The wait times out, perhaps after a Write or a Stop that came while the mutex was free. */
  ghost predicate Timeout(s: State, s': State) {
    s.thread == Waiting && s' == s.(active := s.active.(flush := true))
  }

  ghost predicate Swap(s: State, s': State) {
    && s.thread == Waiting && (NeedsFlushOrWrite(s.active) || s.state != RUNNING)
    && s' == s.(active := s.flushing, flushing := s.active, thread := Forwarding(0))
  }

  ghost predicate Forward(s: State, s': State) {
    && s.thread.Forwarding?
    && var n := s.thread.next;
    if n < |s.flushing.messages| then
      s' == s.(thread := Forwarding(n + 1), forwarded := s.forwarded + [s.flushing.messages[n]])
    else s' == s.(thread := FlushingFiles)
  }

  ghost predicate FlushFiles(s: State, s': State) {
    && s.thread == FlushingFiles
    && s' == s.(thread := Clearing, synced := if s.flushing.flush then |s.forwarded| else s.synced)
  }

  ghost predicate Clear(s: State, s': State) {
    s.thread == Clearing && s' == s.(thread := Counting, flushing := EMPTY_BUFFER)
  }

  /** The round is counted, and with the mutex still held the loop goes on or ends. */
  ghost predicate CountRound(s: State, s': State) {
    && s.thread == Counting
    && s' == s.(flushCount := s.flushCount + 1,
                thread := LoopHead(s))
  }

  ghost predicate ThreadStep(s: State, s': State) {
    || Enter(s, s') || Timeout(s, s') || Swap(s, s') || Forward(s, s') || FlushFiles(s, s') || Clear(s, s')
    || CountRound(s, s')
  }

  ghost predicate CallerStep(s: State, s': State) {
    || Start(s, s')
    || (exists timestamp, text, forceFlush :: Write(s, timestamp, text, forceFlush, s'))
    || (exists c :: StartFlush(s, c, s') || FlushAgain(s, c, s') || EndFlush(s, c, s') || StartStop(s, c, s')
                    || Join(s, c, s'))
  }

  ghost predicate Next(s: State, s': State) {
    ThreadStep(s, s') || CallerStep(s, s')
  }

  // ----- the invariant -----

  /** What the thread still has to forward of the flushing buffer. */
  ghost function Unforwarded(s: State): seq<Msg> {
    if s.thread.Forwarding? && s.thread.next <= |s.flushing.messages| then s.flushing.messages[s.thread.next..] else []
  }

  /** The accepted messages are, in their order, the forwarded ones, those the thread is about to
      forward, and those in the active buffer. */
  ghost predicate Conserved(s: State) {
    s.accepted == s.forwarded + Unforwarded(s) + s.active.messages
  }

  ghost predicate ThreadInv(s: State) {
    && (s.thread.Forwarding? ==> s.thread.next <= |s.flushing.messages|)
    && (s.thread.NotStarted? <==> s.state == INITTED)
    && (s.thread.NotStarted? || s.thread.Entering? || s.thread.Waiting? || s.thread.Counting? || s.thread.Exited? ==>
          s.flushing == EMPTY_BUFFER)
    && (s.thread.Exited? ==> s.state == STOPPED && !NeedsFlushOrWrite(s.active))
    && s.synced <= |s.forwarded|
  }

  /** The messages up to the mark are in the files, or on their way in a buffer that is flushed
      when it has been forwarded. */
  ghost predicate Synced(s: State, mark: nat) {
    mark <= s.synced
  }

  ghost predicate BeingSynced(s: State, mark: nat) {
    && (s.thread.Forwarding? || s.thread.FlushingFiles?) && s.flushing.flush
    && mark <= |s.forwarded| + |Unforwarded(s)|
  }

  /** One further round is not enough, since it may already be under way with an older buffer;
      two are. */
  ghost predicate FlushInv(s: State, orig: nat, mark: nat) {
    && mark <= |s.accepted| && orig <= s.flushCount
    && (if s.flushCount >= orig + 2 then Synced(s, mark)
        else
          || Synced(s, mark) || BeingSynced(s, mark)
          || (s.active.flush && (s.flushCount == orig || s.thread.Entering? || s.thread.Waiting? || s.thread.Exited?)))
  }

  ghost predicate CallersInv(s: State) {
    forall c {:trigger s.callers[c]} | 0 <= c < |s.callers| && s.callers[c].Flushing? ::
      FlushInv(s, s.callers[c].origCount, s.callers[c].mark)
  }

  ghost predicate Inv(s: State) {
    Conserved(s) && ThreadInv(s) && CallersInv(s)
  }

  lemma InitInv(s: State)
    requires Init(s)
    ensures Inv(s)
  {
  }

  lemma ThreadKeeps(s: State, s': State)
    requires Conserved(s) && ThreadInv(s) && ThreadStep(s, s')
    ensures Conserved(s') && ThreadInv(s')
  {
  }

  /** Whatever the thread does, a pending Flush keeps its messages in the files, on their way there,
      or in an active buffer with its flag set. */
  lemma ThreadServes(s: State, s': State, orig: nat, mark: nat)
    requires Conserved(s) && ThreadInv(s) && ThreadStep(s, s') && FlushInv(s, orig, mark)
    ensures FlushInv(s', orig, mark)
  {
  }

  lemma ThreadStepInv(s: State, s': State)
    requires Inv(s) && ThreadStep(s, s')
    ensures Inv(s')
  {
    ThreadKeeps(s, s');
    forall c | 0 <= c < |s'.callers| && s'.callers[c].Flushing?
      ensures FlushInv(s', s'.callers[c].origCount, s'.callers[c].mark)
    {
      ThreadServes(s, s', s.callers[c].origCount, s.callers[c].mark);
    }
  }

  /** A caller's step leaves the thread and its buffer alone, and never takes a flush flag away. */
  ghost predicate OnlyAdds(s: State, s': State) {
    && s' == s.(state := s'.state, active := s'.active, accepted := s'.accepted, callers := s'.callers)
    && (s.active.flush ==> s'.active.flush)
    && (s.thread.Exited? ==> s'.active == s.active && s'.state == s.state)
    && ((s'.accepted == s.accepted && s'.active.messages == s.active.messages)
        || exists m :: s'.accepted == s.accepted + [m] && s'.active.messages == s.active.messages + [m])
    && (s'.state == s.state || (s.state == RUNNING && s'.state == STOPPED))
    && |s'.callers| == |s.callers|
  }

  lemma OnlyAddsKeeps(s: State, s': State)
    requires Conserved(s) && ThreadInv(s) && OnlyAdds(s, s')
    ensures Conserved(s') && ThreadInv(s')
    ensures forall orig: nat, mark: nat | FlushInv(s, orig, mark) :: FlushInv(s', orig, mark)
  {
    if m :| s'.accepted == s.accepted + [m] && s'.active.messages == s.active.messages + [m] {
      var before := s.forwarded + Unforwarded(s);
      assert before + (s.active.messages + [m]) == (before + s.active.messages) + [m];
    }
  }

  /** At the start of a Flush everything accepted is in the buffers or forwarded, and the active
      buffer's flag is set. */
  lemma CallerStepInv(s: State, s': State)
    requires Inv(s) && CallerStep(s, s')
    ensures Inv(s')
  {
    if Start(s, s') {
    } else {
      CallerOnlyAdds(s, s');
      OnlyAddsKeeps(s, s');
      forall c | 0 <= c < |s'.callers| && s'.callers[c].Flushing?
        ensures FlushInv(s', s'.callers[c].origCount, s'.callers[c].mark)
      {
        NewCaller(s, s', c);
      }
    }
  }

  lemma CallerOnlyAdds(s: State, s': State)
    requires Inv(s) && CallerStep(s, s') && !Start(s, s')
    ensures OnlyAdds(s, s')
  {
  }

  lemma NewCaller(s: State, s': State, c: nat)
    requires Inv(s) && CallerStep(s, s') && !Start(s, s') && c < |s'.callers| && s'.callers[c].Flushing?
    ensures s'.callers[c] == s.callers[c]
            || (s'.active.flush && s'.callers[c] == Flushing(s'.flushCount, |s'.accepted|))
  {
  }

  // ----- runs -----

  ghost predicate IsRun(run: seq<State>) {
    && run != [] && Init(run[0])
    && (forall i {:trigger Next(run[i - 1], run[i])} | 0 < i < |run| :: Next(run[i - 1], run[i]))
  }

  lemma {:induction false} RunInv(run: seq<State>, i: nat)
    requires IsRun(run) && i < |run|
    ensures Inv(run[i])
  {
    if i == 0 {
      InitInv(run[0]);
    } else {
      RunInv(run, i - 1);
      assert Next(run[i - 1], run[i]);
      if ThreadStep(run[i - 1], run[i]) {
        ThreadStepInv(run[i - 1], run[i]);
      } else {
        CallerStepInv(run[i - 1], run[i]);
      }
    }
  }

  /** Nothing accepted is lost, doubled or put out of order, in whatever state the logger is. */
  lemma NothingIsLost(run: seq<State>, i: nat)
    requires IsRun(run) && i < |run|
    ensures run[i].accepted == run[i].forwarded + Unforwarded(run[i]) + run[i].active.messages
  {
    RunInv(run, i);
  }

  lemma AcceptedGrows(s: State, s': State)
    requires Inv(s) && Next(s, s')
    ensures s.accepted <= s'.accepted
  {
    if CallerStep(s, s') && !Start(s, s') {
      CallerOnlyAdds(s, s');
    }
  }

  lemma {:induction false} EarlierAccepted(run: seq<State>, i: nat, j: nat)
    requires IsRun(run) && i <= j < |run|
    ensures run[i].accepted <= run[j].accepted
  {
    if i < j {
      EarlierAccepted(run, i, j - 1);
      RunInv(run, j - 1);
      AcceptedGrows(run[j - 1], run[j]);
    }
  }

  /** From state i to state j the caller stays inside the same Flush. */
  ghost predicate InSameFlush(run: seq<State>, i: nat, j: nat, c: nat) {
    && i <= j < |run| && c < |run[i].callers|
    && forall k {:trigger run[k]} | i <= k <= j :: c < |run[k].callers| && run[k].callers[c] == run[i].callers[c]
  }

  /** A Flush that returns while the logger still runs has got every message accepted before the
      call forwarded and flushed to the files. */
  lemma FlushDelivers(run: seq<State>, i: nat, j: nat, c: nat)
    requires IsRun(run) && i < j && j + 1 < |run| && StartFlush(run[i], c, run[i + 1])
    requires InSameFlush(run, i + 1, j, c)
    requires EndFlush(run[j], c, run[j + 1]) && run[j].state == RUNNING
    ensures run[i].accepted <= run[j].forwarded && |run[i].accepted| <= run[j].synced
  {
    RunInv(run, j);
    EarlierAccepted(run, i, j);
    assert run[j].callers[c] == Flushing(run[i].flushCount, |run[i].accepted|);
    assert FlushInv(run[j], run[i].flushCount, |run[i].accepted|);
    PrefixOfPrefix(run[i].accepted, run[j]);
  }

  lemma PrefixOfPrefix(accepted: seq<Msg>, s: State)
    requires Conserved(s) && accepted <= s.accepted && |accepted| <= |s.forwarded|
    ensures accepted <= s.forwarded
  {
    var rest := Unforwarded(s) + s.active.messages;
    assert s.accepted == s.forwarded + rest;
  }

  /** When the thread has ended, as Stop checks after joining it, both buffers are empty and every
      accepted message has been forwarded. */
  lemma StoppedIsDrained(run: seq<State>, i: nat)
    requires IsRun(run) && i < |run| && run[i].thread.Exited?
    ensures run[i].active.messages == [] && run[i].flushing.messages == []
    ensures run[i].forwarded == run[i].accepted
  {
    RunInv(run, i);
  }

  lemma JoinedStays(s: State, s': State, c: nat)
    requires Next(s, s') && c < |s'.callers| && s'.callers[c].Joined?
    ensures s'.thread.Exited? || (c < |s.callers| && s.callers[c].Joined?)
    ensures s.thread.Exited? && s.state != INITTED ==> s'.thread.Exited?
  {
  }

  /** Stop does not return before that. */
  lemma {:induction false} StopReturnsAtTheEnd(run: seq<State>, i: nat, c: nat)
    requires IsRun(run) && i < |run| && c < |run[i].callers| && run[i].callers[c].Joined?
    ensures run[i].thread.Exited? && run[i].forwarded == run[i].accepted
  {
    RunInv(run, i);
    if i > 0 {
      var s, s' := run[i - 1], run[i];
      assert Next(s, s');
      RunInv(run, i - 1);
      JoinedStays(s, s', c);
      if c < |s.callers| && s.callers[c].Joined? {
        StopReturnsAtTheEnd(run, i - 1, c);
      }
    }
  }

  // ----- the space the buffers take -----

  function SizeOf(messages: seq<Msg>, msgSize: nat): nat {
    if messages == [] then 0
    else SizeOf(messages[..|messages| - 1], msgSize) + msgSize + |messages[|messages| - 1].text|
  }

  /** A buffer's size is that of its records, and without its last one at most half of the space. */
  ghost predicate BufferInv(s: State, b: Buffer) {
    && b.size == SizeOf(b.messages, s.msgSize)
    && (b.messages != [] ==> SizeOf(b.messages[..|b.messages| - 1], s.msgSize) <= s.maxBytes / 2)
  }

  lemma WriteBounded(s: State, timestamp: int, text: string, forceFlush: bool, s': State)
    requires BufferInv(s, s.active) && Write(s, timestamp, text, forceFlush, s')
    ensures BufferInv(s', s'.active)
  {
    if !Drops(s) {
      assert s'.active.messages[..|s.active.messages|] == s.active.messages;
    }
  }

  lemma ThreadBounded(s: State, s': State)
    requires BufferInv(s, s.active) && BufferInv(s, s.flushing) && ThreadStep(s, s')
    ensures BufferInv(s', s'.active) && BufferInv(s', s'.flushing)
  {
  }

  lemma CallerBounded(s: State, s': State)
    requires BufferInv(s, s.active) && BufferInv(s, s.flushing) && CallerStep(s, s')
    ensures BufferInv(s', s'.active) && BufferInv(s', s'.flushing)
  {
    if timestamp, text, forceFlush :| Write(s, timestamp, text, forceFlush, s') {
      WriteBounded(s, timestamp, text, forceFlush, s');
    }
  }

  /** However fast the callers write, neither buffer outgrows half of the space by more than the
      one record that was accepted last. */
  lemma {:induction false} BuffersAreBounded(run: seq<State>, i: nat)
    requires IsRun(run) && i < |run|
    ensures BufferInv(run[i], run[i].active) && BufferInv(run[i], run[i].flushing)
  {
    if i > 0 {
      BuffersAreBounded(run, i - 1);
      assert Next(run[i - 1], run[i]);
      if ThreadStep(run[i - 1], run[i]) {
        ThreadBounded(run[i - 1], run[i]);
      } else {
        CallerBounded(run[i - 1], run[i]);
      }
    }
  }

  /** A message is accepted if and only if the logger runs and the records in the active buffer take
      no more than half of the space; it then carries its time, its text and the level that its first
      letter stands for, and sets the flush flag when asked to. */
  lemma AcceptedIff(run: seq<State>, i: nat, timestamp: int, text: string, forceFlush: bool)
    requires IsRun(run) && i + 1 < |run| && Write(run[i], timestamp, text, forceFlush, run[i + 1])
    ensures var s, s' := run[i], run[i + 1];
      if s.state == RUNNING && 2 * SizeOf(s.active.messages, s.msgSize) <= s.maxBytes then
        s'.accepted == s.accepted + [Msg(timestamp, text, LevelOf(text))]
        && s'.active.flush == (s.active.flush || forceFlush)
      else s' == s
  {
    BuffersAreBounded(run, i);
  }

  // ----- why Flush waits for two rounds -----

  lemma Extend(run: seq<State>, s: State) returns (run': seq<State>)
    requires IsRun(run) && Next(run[|run| - 1], s)
    ensures IsRun(run') && run' == run + [s]
  {
    run' := run + [s];
  }

  /** The thread is forwarding one message when a second is accepted and a Flush begins. */
  lemma FlushBehindAnOlderBuffer() returns (run: seq<State>)
    ensures IsRun(run) && |run| >= 2 && StartFlush(run[|run| - 2], 0, run[|run| - 1])
    ensures var s := run[|run| - 1];
      && s.thread == Forwarding(0) && |s.flushing.messages| == 1 && !s.flushing.flush && s.state == RUNNING
      && s.forwarded == [] && s.synced == 0 && |s.callers| == 1 && s.callers[0] == Flushing(s.flushCount, 2)
  {
    var s0 := State(MaxBytes(0), 48, INITTED, EMPTY_BUFFER, EMPTY_BUFFER, 0, NotStarted, [Outside], [], [], 0);
    run := [s0];
    var s1 := s0.(state := RUNNING, thread := Entering);
    assert Start(s0, s1);
    run := Extend(run, s1);
    var s2 := s1.(thread := Waiting);
    assert Enter(s1, s2);
    run := Extend(run, s2);
    var m := Msg(0, "I", LevelOf("I"));
    var s3 := s2.(active := Added(s2, m, false), accepted := s2.accepted + [m]);
    assert Write(s2, 0, "I", false, s3);
    run := Extend(run, s3);
    var s4 := s3.(active := s3.flushing, flushing := s3.active, thread := Forwarding(0));
    assert Swap(s3, s4);
    run := Extend(run, s4);
    var s5 := s4.(active := Added(s4, m, false), accepted := s4.accepted + [m]);
    assert Write(s4, 0, "I", false, s5);
    run := Extend(run, s5);
    var s6 := s5.(active := s5.active.(flush := true), callers := s5.callers[0 := Flushing(s5.flushCount, |s5.accepted|)]);
    assert StartFlush(s5, 0, s6);
    run := Extend(run, s6);
  }

  /** A round of the thread, from its swap to the count. */
  lemma OneRound(run: seq<State>) returns (run': seq<State>)
    requires IsRun(run) && run[|run| - 1].thread == Forwarding(0)
    ensures IsRun(run') && |run'| > |run| && run'[..|run|] == run
    ensures var s, s' := run[|run| - 1], run'[|run'| - 1];
      s' == s.(forwarded := s.forwarded + s.flushing.messages, flushing := EMPTY_BUFFER,
               flushCount := s.flushCount + 1, thread := LoopHead(s),
               synced := if s.flushing.flush then |s.forwarded + s.flushing.messages| else s.synced)
    ensures forall k {:trigger run'[k]} | |run| <= k < |run'| :: run'[k].callers == run[|run| - 1].callers
  {
    var s := run[|run| - 1];
    run' := ForwardAll(run);
    var s1 := run'[|run'| - 1].(thread := FlushingFiles);
    assert Forward(run'[|run'| - 1], s1);
    run' := Extend(run', s1);
    var s2 := s1.(thread := Clearing, synced := if s.flushing.flush then |s1.forwarded| else s.synced);
    assert FlushFiles(s1, s2);
    run' := Extend(run', s2);
    var s3 := s2.(thread := Counting, flushing := EMPTY_BUFFER);
    assert Clear(s2, s3);
    run' := Extend(run', s3);
    var s4 := s3.(flushCount := s3.flushCount + 1, thread := LoopHead(s3));
    assert CountRound(s3, s4);
    run' := Extend(run', s4);
  }

  lemma ForwardAll(run: seq<State>) returns (run': seq<State>)
    requires IsRun(run) && run[|run| - 1].thread == Forwarding(0)
    ensures IsRun(run') && |run'| >= |run| && run'[..|run|] == run
    ensures var s := run[|run| - 1];
      run'[|run'| - 1] == s.(thread := Forwarding(|s.flushing.messages|), forwarded := s.forwarded + s.flushing.messages)
    ensures forall k {:trigger run'[k]} | |run| <= k < |run'| :: run'[k].callers == run[|run| - 1].callers
  {
    var s := run[|run| - 1];
    run' := run;
    for n := 0 to |s.flushing.messages|
      invariant IsRun(run') && |run'| >= |run| && run'[..|run|] == run
      invariant run'[|run'| - 1] == s.(thread := Forwarding(n), forwarded := s.forwarded + s.flushing.messages[..n])
      invariant forall k {:trigger run'[k]} | |run| <= k < |run'| :: run'[k].callers == s.callers
    {
      var messages := s.flushing.messages;
      assert messages[..n + 1] == messages[..n] + [messages[n]];
      assert s.forwarded + messages[..n + 1] == (s.forwarded + messages[..n]) + [messages[n]];
      var t := s.(thread := Forwarding(n + 1), forwarded := s.forwarded + messages[..n + 1]);
      assert Forward(run'[|run'| - 1], t);
      run' := Extend(run', t);
    }
    assert s.flushing.messages[..|s.flushing.messages|] == s.flushing.messages;
  }

  /** When the wait times out, one undisturbed round brings everything accepted into the files. */
  lemma TimeoutSyncs(run: seq<State>) returns (run': seq<State>)
    requires IsRun(run) && run[|run| - 1].thread == Waiting
    ensures IsRun(run') && |run'| > |run| && run'[..|run|] == run
    ensures Timeout(run[|run| - 1], run'[|run|])
    ensures run'[|run'| - 1].synced == |run'[|run'| - 1].accepted| && run'[|run'| - 1].accepted == run[|run| - 1].accepted
  {
    var s := run[|run| - 1];
    RunInv(run, |run| - 1);
    var s1 := s.(active := s.active.(flush := true));
    assert Timeout(s, s1);
    var run1 := Extend(run, s1);
    var s2 := s1.(active := s1.flushing, flushing := s1.active, thread := Forwarding(0));
    assert Swap(s1, s2);
    var run2 := Extend(run1, s2);
    run' := OneRound(run2);
    assert run'[..|run|] == run2[..|run|] == run;
    assert run'[|run|] == run2[|run|] == s1;
  }

  /** After one more round a message accepted before the Flush may still be in the active buffer. */
  lemma OneRoundIsNotEnough() returns (run: seq<State>)
    ensures IsRun(run)
    ensures var s := run[|run| - 1];
      && |s.callers| == 1 && s.callers[0].Flushing? && s.flushCount == s.callers[0].origCount + 1
      && |s.forwarded| < s.callers[0].mark
  {
    run := FlushBehindAnOlderBuffer();
    run := OneRound(run);
  }

  /** After the second round the Flush returns: a run of the kind that FlushDelivers speaks of. */
  lemma TwoRoundsAreEnough() returns (run: seq<State>, i: nat, j: nat)
    ensures IsRun(run) && i < j && j + 1 < |run| && StartFlush(run[i], 0, run[i + 1])
    ensures InSameFlush(run, i + 1, j, 0) && EndFlush(run[j], 0, run[j + 1])
    ensures run[j].state == RUNNING && |run[i].accepted| == 2
  {
    run := FlushBehindAnOlderBuffer();
    i := |run| - 2;
    run := OneRound(run);
    var s := run[|run| - 1];
    var s1 := s.(active := s.flushing, flushing := s.active, thread := Forwarding(0));
    assert Swap(s, s1);
    run := Extend(run, s1);
    run := OneRound(run);
    j := |run| - 1;
    var s2 := run[j].(callers := run[j].callers[0 := Outside]);
    assert EndFlush(run[j], 0, s2);
    run := Extend(run, s2);
  }

  /** A logger that is started and stopped: the thread ends, as StoppedIsDrained expects. */
  lemma StartAndStop() returns (run: seq<State>)
    ensures IsRun(run) && run[|run| - 1].thread.Exited?
  {
    var s0 := State(MaxBytes(0), 48, INITTED, EMPTY_BUFFER, EMPTY_BUFFER, 0, NotStarted, [Outside], [], [], 0);
    var s1 := s0.(state := RUNNING, thread := Entering);
    assert Start(s0, s1);
    run := Extend([s0], s1);
    var s2 := s1.(state := STOPPED, callers := [Joining]);
    assert StartStop(s1, 0, s2);
    run := Extend(run, s2);
    var s3 := s2.(thread := Exited);
    assert Enter(s2, s3);
    run := Extend(run, s3);
  }
}
