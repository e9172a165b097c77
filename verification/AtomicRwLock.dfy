/** AtomicRWLock with any number of threads.  Loads, compare-and-swaps and additions are one step
    each; a weak compare-and-swap may fail even when the word has the expected value. */
module AtomicRwLock {
  import opened LockWord
  import opened Options

  datatype Pc =
    | Outside
    // ReadLock
    | ReadLoads
    | ReadDecides(word: int)
    | ReadTries(word: int)
    | Reads
    // WriteLock
    | WriteTries
    | WriteTaken
    | Writes

  /** `waiting` is write_lock_wait_num_. */
  datatype State = State(lock: Lock, waiting: int, writeFirst: bool, threads: seq<Pc>)

  // ----- the steps -----

  ghost predicate Init(s: State) {
    && s.lock == FREE_LOCK && s.waiting == 0
    && (forall t {:trigger s.threads[t]} | 0 <= t < |s.threads| :: s.threads[t].Outside?)
  }

  ghost function Goto(s: State, t: nat, pc: Pc): State
    requires t < |s.threads|
  {
    s.(threads := s.threads[t := pc])
  }

  ghost predicate ReadLock(s: State, t: nat, s': State) {
    && t < |s.threads|
    && match s.threads[t]
       case Outside => s' == Goto(s, t, ReadLoads)
       case ReadLoads => s' == Goto(s, t, ReadDecides(s.lock.word))
       case ReadDecides(word) =>
         s' == Goto(s, t, if word < 0 || (s.writeFirst && s.waiting > 0) then ReadLoads else ReadTries(word))
       case ReadTries(word) =>
         || (s.lock.word == word && s' == Goto(s, t, Reads).(lock := TakenToRead(s.lock, t)))
         || s' == Goto(s, t, ReadDecides(s.lock.word))
       case Reads => s' == Goto(s, t, Outside).(lock := ReadReleased(s.lock, t))
       case _ => false
  }

  ghost predicate WriteLock(s: State, t: nat, s': State) {
    && t < |s.threads|
    && match s.threads[t]
       case Outside => s' == Goto(s, t, WriteTries).(waiting := s.waiting + 1)
       case WriteTries =>
         (s.lock.word == 0 && s' == Goto(s, t, WriteTaken).(lock := TakenToWrite(s.lock, t))) || s' == s
       case WriteTaken => s' == Goto(s, t, Writes).(waiting := s.waiting - 1)
       case Writes => s' == Goto(s, t, Outside).(lock := WriteReleased(s.lock))
       case _ => false
  }

  ghost predicate Next(s: State, s': State) {
    exists t :: ReadLock(s, t, s') || WriteLock(s, t, s')
  }

  // ----- the invariant -----

  /** The lock is held by the threads that are between ReadLock or WriteLock and the release. */
  ghost predicate ThreadInv(s: State, t: nat)
    requires t < |s.threads|
  {
    && (s.threads[t].Reads? <==> t in s.lock.readers)
    && (s.threads[t].WriteTaken? || s.threads[t].Writes? <==> s.lock.writer == Some(t))
    && (s.threads[t].ReadTries? ==> s.threads[t].word >= 0)
  }

  ghost predicate Inv(s: State) {
    && LockInv(s.lock)
    && (forall t {:trigger ThreadInv(s, t)} | 0 <= t < |s.threads| :: ThreadInv(s, t))
    && (forall t {:trigger t in s.lock.readers} | t in s.lock.readers :: t < |s.threads|)
    && (s.lock.writer.Some? ==> s.lock.writer.value < |s.threads|)
  }

  lemma ReadLockInv(s: State, t: nat, s': State)
    requires Inv(s) && ReadLock(s, t, s')
    ensures Inv(s')
  {
    assert ThreadInv(s, t);
    TakeKeeps(s.lock, t);
    ReleaseKeeps(s.lock, t);
    forall u | 0 <= u < |s'.threads|
      ensures ThreadInv(s', u)
    {
      assert ThreadInv(s, u);
    }
  }

  lemma WriteLockInv(s: State, t: nat, s': State)
    requires Inv(s) && WriteLock(s, t, s')
    ensures Inv(s')
  {
    assert ThreadInv(s, t);
    TakeKeeps(s.lock, t);
    ReleaseKeeps(s.lock, t);
    forall u | 0 <= u < |s'.threads|
      ensures ThreadInv(s', u)
    {
      assert ThreadInv(s, u);
    }
  }

  ghost predicate IsRun(run: seq<State>) {
    && run != [] && Init(run[0])
    && (forall i {:trigger Next(run[i - 1], run[i])} | 0 < i < |run| :: Next(run[i - 1], run[i]))
  }

  lemma {:induction false} RunInv(run: seq<State>, i: nat)
    requires IsRun(run) && i < |run|
    ensures Inv(run[i])
  {
    if i > 0 {
      RunInv(run, i - 1);
      assert Next(run[i - 1], run[i]);
      var t :| ReadLock(run[i - 1], t, run[i]) || WriteLock(run[i - 1], t, run[i]);
      if ReadLock(run[i - 1], t, run[i]) {
        ReadLockInv(run[i - 1], t, run[i]);
      } else {
        WriteLockInv(run[i - 1], t, run[i]);
      }
    }
  }

  ghost function ReaderThreads(s: State): set<nat> {
    set t: nat | t < |s.threads| && s.threads[t].Reads?
  }

  ghost function WriterThreads(s: State): set<nat> {
    set t: nat | t < |s.threads| && (s.threads[t].WriteTaken? || s.threads[t].Writes?)
  }

  /** In every reachable state the lock word tells the threads inside: -1 means one writer and no
      reader, anything else is the number of readers, with no writer. */
  lemma WordTellsHolders(run: seq<State>, i: nat)
    requires IsRun(run) && i < |run|
    ensures run[i].lock.word == -1 <==> |WriterThreads(run[i])| == 1
    ensures |WriterThreads(run[i])| <= 1
    ensures WriterThreads(run[i]) != {} ==> ReaderThreads(run[i]) == {}
    ensures WriterThreads(run[i]) == {} ==> run[i].lock.word == |ReaderThreads(run[i])|
  {
    RunInv(run, i);
    var s := run[i];
    forall t: nat
      ensures t in ReaderThreads(s) <==> t in s.lock.readers
      ensures t in WriterThreads(s) <==> s.lock.writer == Some(t)
    {
      assert t < |s.threads| ==> ThreadInv(s, t);
    }
    assert ReaderThreads(s) == s.lock.readers;
    assert WriterThreads(s) == if s.lock.writer.Some? then {s.lock.writer.value} else {};
  }

  // ----- writers that wait -----

  ghost predicate IsWaiting(pc: Pc) {
    pc.WriteTries? || pc.WriteTaken?
  }

  ghost function WaitingThreads(s: State): set<nat> {
    set t: nat | t < |s.threads| && IsWaiting(s.threads[t])
  }

  /** Only thread t may begin or end to wait. */
  lemma WaitingMoves(s: State, t: nat, s': State)
    requires t < |s.threads| && |s'.threads| == |s.threads| && s'.threads == s.threads[t := s'.threads[t]]
    ensures IsWaiting(s.threads[t]) <==> t in WaitingThreads(s)
    ensures WaitingThreads(s') == if IsWaiting(s'.threads[t]) then WaitingThreads(s) + {t} else WaitingThreads(s) - {t}
  {
  }

  lemma ReadersDoNotWait(s: State, t: nat, s': State)
    requires ReadLock(s, t, s')
    ensures WaitingThreads(s') == WaitingThreads(s) && s'.waiting == s.waiting && s'.writeFirst == s.writeFirst
  {
    WaitingMoves(s, t, s');
  }

  lemma WaitingStep(s: State, t: nat, s': State)
    requires s.waiting == |WaitingThreads(s)| && WriteLock(s, t, s')
    ensures s'.waiting == |WaitingThreads(s')| && s'.writeFirst == s.writeFirst
  {
    WaitingMoves(s, t, s');
    var waiting := WaitingThreads(s);
    assert t in waiting ==> |waiting + {t}| == |waiting| && |waiting - {t}| == |waiting| - 1;
    assert t !in waiting ==> |waiting + {t}| == |waiting| + 1 && waiting - {t} == waiting;
  }

  /** The counter is the number of threads between the beginning of WriteLock and its end. */
  lemma {:induction false} WaitingCounts(run: seq<State>, i: nat)
    requires IsRun(run) && i < |run|
    ensures run[i].waiting == |WaitingThreads(run[i])| && run[i].writeFirst == run[0].writeFirst
  {
    if i == 0 {
      assert WaitingThreads(run[0]) == {};
    } else {
      WaitingCounts(run, i - 1);
      assert Next(run[i - 1], run[i]);
      var t :| ReadLock(run[i - 1], t, run[i]) || WriteLock(run[i - 1], t, run[i]);
      if ReadLock(run[i - 1], t, run[i]) {
        ReadersDoNotWait(run[i - 1], t, run[i]);
      } else {
        WaitingStep(run[i - 1], t, run[i]);
      }
    }
  }

  /** A thread that reads, or has decided to. */
  ghost predicate GoesIn(s: State, t: nat) {
    t < |s.threads| && (s.threads[t].ReadTries? || s.threads[t].Reads?)
  }

  /** From state i to state j there is always a writer that waits. */
  ghost predicate WriterWaits(run: seq<State>, i: nat, j: nat) {
    i <= j < |run| && forall k {:trigger run[k]} | i <= k <= j :: WaitingThreads(run[k]) != {}
  }

  lemma NobodyElseGoesIn(s: State, s': State, t: nat)
    requires Next(s, s') && s.writeFirst && s.waiting > 0 && GoesIn(s', t)
    ensures GoesIn(s, t)
  {
    var u :| ReadLock(s, u, s') || WriteLock(s, u, s');
  }

  /** With write_first, as long as some writer waits the only threads that come to read are those
      that had decided before it came. */
  lemma {:induction false} WritersComeFirst(run: seq<State>, i: nat, j: nat, t: nat)
    requires IsRun(run) && WriterWaits(run, i, j) && run[0].writeFirst && GoesIn(run[j], t)
    ensures GoesIn(run[i], t)
  {
    if i < j {
      WaitingCounts(run, j - 1);
      assert WaitingThreads(run[j - 1]) != {};
      assert Next(run[j - 1], run[j]);
      NobodyElseGoesIn(run[j - 1], run[j], t);
      WritersComeFirst(run, i, j - 1, t);
    }
  }

  /** A reader decides on a word that it has just loaded, or that its failed attempt has brought. */
  lemma DecidesOnTheCurrentWord(s: State, t: nat, s': State)
    requires ReadLock(s, t, s')
    ensures s'.threads[t].ReadDecides? ==> s'.threads[t].word == s.lock.word
    ensures s'.threads[t].ReadTries? ==> s.threads[t] == ReadDecides(s'.threads[t].word)
  {
  }

  // ----- a free lock can be taken -----

  /** When nobody is inside, and with write_first nobody waits to write, a reader comes in alone. */
  lemma ReadsAlone(s: State, t: nat) returns (run: seq<State>)
    requires t < |s.threads| && s.threads[t].Outside? && s.lock.word >= 0 && !(s.writeFirst && s.waiting > 0)
    ensures |run| == 5 && run[0] == s && t < |run[4].threads| && run[4].threads[t].Reads?
    ensures forall k {:trigger run[k]} | 0 < k < |run| :: ReadLock(run[k - 1], t, run[k])
  {
    var s1 := Goto(s, t, ReadLoads);
    var s2 := Goto(s1, t, ReadDecides(s.lock.word));
    var s3 := Goto(s2, t, ReadTries(s.lock.word));
    run := [s, s1, s2, s3, Goto(s3, t, Reads).(lock := TakenToRead(s3.lock, t))];
  }

  lemma WritesAlone(s: State, t: nat) returns (run: seq<State>)
    requires t < |s.threads| && s.threads[t].Outside? && s.lock.word == 0
    ensures |run| == 4 && run[0] == s && t < |run[3].threads| && run[3].threads[t].Writes? && run[3].waiting == s.waiting
    ensures forall k {:trigger run[k]} | 0 < k < |run| :: WriteLock(run[k - 1], t, run[k])
  {
    var s1 := Goto(s, t, WriteTries).(waiting := s.waiting + 1);
    var s2 := Goto(s1, t, WriteTaken).(lock := TakenToWrite(s.lock, t));
    run := [s, s1, s2, Goto(s2, t, Writes).(waiting := s.waiting)];
  }
}
