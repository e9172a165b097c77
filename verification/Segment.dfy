/** The blocks of a shared-memory segment: Block::TryLockForWrite and TryLockForRead, and the search
    of Segment::GetNextWritableBlockIndex, with any number of threads and processes.  Loads,
    compare-and-swaps and additions are one step each; a weak compare-and-swap may fail even when
    the word has the expected value. */
module Segment {
  import opened LockWord
  import opened Options
  import opened RingIndex

  const MAX_TRY_LOCK_TIMES: nat := 5
  const UINT32: nat := 0x1_0000_0000

  datatype Pc =
    | Outside
    // AcquireBlockToWrite
    | Probing(index: nat)
    | Locked(index: nat)
    | Writing(index: nat)
    // AcquireBlockToRead
    | Loading(index: nat, tries: nat)
    | Trying(index: nat, tries: nat, word: int)
    | Reading(index: nat)

  /** `wroteNum` is a 32-bit counter. */
  datatype State = State(blocks: seq<Lock>, wroteNum: nat, threads: seq<Pc>)

  /** ShmConf's numbers of blocks are powers of two: masking with one less gives the remainder. */
  lemma MaskIsRemainder(index: bv32)
    ensures index & (512 - 1) == index % 512
    ensures index & (128 - 1) == index % 128
    ensures index & (64 - 1) == index % 64
    ensures index & (32 - 1) == index % 32
    ensures index & (16 - 1) == index % 16
    ensures index & (8 - 1) == index % 8
  {
  }

  // ----- the steps -----

  ghost predicate Init(s: State) {
    && |s.blocks| > 0 && s.wroteNum == 0
    && (forall b {:trigger s.blocks[b]} | 0 <= b < |s.blocks| :: s.blocks[b] == FREE_LOCK)
    && (forall t {:trigger s.threads[t]} | 0 <= t < |s.threads| :: s.threads[t].Outside?)
  }

  ghost function Goto(s: State, t: nat, pc: Pc): State
    requires t < |s.threads|
  {
    s.(threads := s.threads[t := pc])
  }

  ghost function SetLock(s: State, b: nat, lock: Lock): State
    requires b < |s.blocks|
  {
    s.(blocks := s.blocks[b := lock])
  }

  /** The index that is probed: masked when it is out of range. */
  function Masked(index: nat, blockNum: nat): (r: nat)
    requires blockNum > 0
    ensures r < blockNum
  {
    if index >= blockNum then index % blockNum else index
  }

  ghost predicate WriteStep(s: State, t: nat, s': State) {
    && t < |s.threads| && |s.blocks| > 0
    && match s.threads[t]
       case Outside => s' == Goto(s, t, Probing(s.wroteNum))
       case Probing(index) =>
         var b := Masked(index, |s.blocks|);
         || (s.blocks[b].word == 0 && s' == SetLock(Goto(s, t, Locked(b)), b, TakenToWrite(s.blocks[b], t)))
         || s' == Goto(s, t, Probing(b + 1))
       case Locked(index) => s' == Goto(s, t, Writing(index)).(wroteNum := (s.wroteNum + 1) % UINT32)
       case Writing(index) =>
         if index < |s.blocks| then s' == SetLock(Goto(s, t, Outside), index, WriteReleased(s.blocks[index]))
         else s' == Goto(s, t, Outside)
       case _ => false
  }

  ghost predicate ReadStep(s: State, t: nat, s': State) {
    && t < |s.threads|
    && match s.threads[t]
       case Outside =>
         s' == s || (exists index: nat :: index < |s.blocks| && s' == Goto(s, t, Loading(index, 0)))
       case Loading(index, tries) =>
         && index < |s.blocks|
         && var word := s.blocks[index].word;
         s' == Goto(s, t, if word < 0 then Outside else Trying(index, tries, word))
       case Trying(index, tries, word) =>
         && index < |s.blocks|
         && (|| (s.blocks[index].word == word
                 && s' == SetLock(Goto(s, t, Reading(index)), index, TakenToRead(s.blocks[index], t)))
             || s' == Goto(s, t, if tries + 1 == MAX_TRY_LOCK_TIMES then Outside else Loading(index, tries + 1)))
       case Reading(index) =>
         if index < |s.blocks| then s' == SetLock(Goto(s, t, Outside), index, ReadReleased(s.blocks[index], t))
         else s' == Goto(s, t, Outside)
       case _ => false
  }

  ghost predicate Next(s: State, s': State) {
    exists t :: WriteStep(s, t, s') || ReadStep(s, t, s')
  }

  // ----- the invariant -----

  ghost predicate HoldsToRead(pc: Pc, b: nat) {
    pc.Reading? && pc.index == b
  }

  ghost predicate HoldsToWrite(pc: Pc, b: nat) {
    (pc.Locked? || pc.Writing?) && pc.index == b
  }

  ghost predicate HolderInv(s: State, t: int, b: int)
    requires 0 <= t < |s.threads| && 0 <= b < |s.blocks|
  {
    && (HoldsToRead(s.threads[t], b) <==> t in s.blocks[b].readers)
    && (HoldsToWrite(s.threads[t], b) <==> s.blocks[b].writer == Some(t))
  }

  ghost predicate BlockInv(s: State, b: int)
    requires 0 <= b < |s.blocks|
  {
    && LockInv(s.blocks[b])
    && (forall t {:trigger HolderInv(s, t, b)} | 0 <= t < |s.threads| :: HolderInv(s, t, b))
    && (forall t {:trigger t in s.blocks[b].readers} | t in s.blocks[b].readers :: t < |s.threads|)
    && (s.blocks[b].writer.Some? ==> s.blocks[b].writer.value < |s.threads|)
  }

  ghost predicate PcInv(s: State, pc: Pc) {
    && (pc.Locked? || pc.Writing? || pc.Reading? || pc.Loading? || pc.Trying? ==> pc.index < |s.blocks|)
    && (pc.Loading? || pc.Trying? ==> pc.tries < MAX_TRY_LOCK_TIMES)
    && (pc.Trying? ==> pc.word >= 0)
  }

  ghost predicate Inv(s: State) {
    && |s.blocks| > 0
    && (forall b {:trigger BlockInv(s, b)} | 0 <= b < |s.blocks| :: BlockInv(s, b))
    && (forall t {:trigger PcInv(s, s.threads[t])} | 0 <= t < |s.threads| :: PcInv(s, s.threads[t]))
  }

  lemma InitInv(s: State)
    requires Init(s)
    ensures Inv(s)
  {
  }

  /** Thread t moves, and the lock of block b changes as TakeKeeps and ReleaseKeeps allow. */
  ghost predicate Changes(s: State, t: nat, b: nat, lock: Lock, s': State) {
    && t < |s.threads| && b < |s.blocks| && |s'.threads| == |s.threads|
    && s'.blocks == s.blocks[b := lock]
    && (forall u {:trigger s'.threads[u]} | 0 <= u < |s.threads| && u != t :: s'.threads[u] == s.threads[u])
    && LockInv(lock)
    && (forall u {:trigger u in lock.readers} | u != t :: u in lock.readers <==> u in s.blocks[b].readers)
    && (forall u: nat {:trigger HoldsToWrite(s'.threads[u], b)} | u < |s'.threads| && u != t ::
          lock.writer == Some(u) <==> s.blocks[b].writer == Some(u))
    && (lock.writer.Some? ==> lock.writer.value < |s.threads|)
  }

  lemma ChangesInv(s: State, t: nat, b: nat, lock: Lock, s': State)
    requires Inv(s) && Changes(s, t, b, lock, s') && PcInv(s', s'.threads[t])
    requires forall c {:trigger HolderInv(s', t, c)} | 0 <= c < |s.blocks| :: HolderInv(s', t, c)
    ensures Inv(s')
  {
    forall c | 0 <= c < |s'.blocks|
      ensures BlockInv(s', c)
    {
      assert BlockInv(s, c);
      forall u | 0 <= u < |s'.threads|
        ensures HolderInv(s', u, c)
      {
        assert HolderInv(s, u, c);
      }
    }
    forall u | 0 <= u < |s'.threads|
      ensures PcInv(s', s'.threads[u])
    {
      assert PcInv(s, s.threads[u]);
    }
  }

  lemma WriteStepInv(s: State, t: nat, b: nat, s': State)
    requires Inv(s) && WriteStep(s, t, s') && b == Touched(s, t)
    ensures Inv(s')
  {
    assert PcInv(s, s.threads[t]) && BlockInv(s, b);
    TakeKeeps(s.blocks[b], t);
    ReleaseKeeps(s.blocks[b], t);
    forall c | 0 <= c < |s.blocks|
      ensures HolderInv(s', t, c)
    {
      assert BlockInv(s, c) && HolderInv(s, t, c);
    }
    assert HolderInv(s, t, b);
    ChangesInv(s, t, b, s'.blocks[b], s');
  }

  lemma ReadStepInv(s: State, t: nat, b: nat, s': State)
    requires Inv(s) && ReadStep(s, t, s') && b == Touched(s, t)
    ensures Inv(s')
  {
    assert PcInv(s, s.threads[t]) && BlockInv(s, b);
    TakeKeeps(s.blocks[b], t);
    ReleaseKeeps(s.blocks[b], t);
    forall c | 0 <= c < |s.blocks|
      ensures HolderInv(s', t, c)
    {
      assert BlockInv(s, c) && HolderInv(s, t, c);
    }
    assert HolderInv(s, t, b);
    ChangesInv(s, t, b, s'.blocks[b], s');
  }

  /** The block whose lock word the next step of thread t may change. */
  ghost function Touched(s: State, t: nat): (b: nat)
    requires Inv(s) && t < |s.threads|
    ensures b < |s.blocks|
  {
    var pc := s.threads[t];
    if pc.Outside? then 0
    else if pc.Probing? then Masked(pc.index, |s.blocks|)
    else assert PcInv(s, pc); pc.index
  }

  ghost predicate IsRun(run: seq<State>) {
    && run != [] && Init(run[0])
    && (forall i {:trigger Next(run[i - 1], run[i])} | 0 < i < |run| :: Next(run[i - 1], run[i]))
  }

  lemma {:induction false} RunInv(run: seq<State>, i: nat)
    requires IsRun(run) && i < |run|
    ensures Inv(run[i])
  {
    if i == 0 {
      InitInv(run[0]);
    } else {
      RunInv(run, i - 1);
      assert Next(run[i - 1], run[i]);
      var t :| WriteStep(run[i - 1], t, run[i]) || ReadStep(run[i - 1], t, run[i]);
      if WriteStep(run[i - 1], t, run[i]) {
        WriteStepInv(run[i - 1], t, Touched(run[i - 1], t), run[i]);
      } else {
        ReadStepInv(run[i - 1], t, Touched(run[i - 1], t), run[i]);
      }
    }
  }

  ghost function ReaderThreads(s: State, b: nat): set<nat> {
    set t: nat | t < |s.threads| && HoldsToRead(s.threads[t], b)
  }

  ghost function WriterThreads(s: State, b: nat): set<nat> {
    set t: nat | t < |s.threads| && HoldsToWrite(s.threads[t], b)
  }

  /** In every reachable state the lock word of each block tells the threads that hold it. */
  lemma WordTellsHolders(run: seq<State>, i: nat, b: nat)
    requires IsRun(run) && i < |run| && b < |run[i].blocks|
    ensures run[i].blocks[b].word == -1 <==> |WriterThreads(run[i], b)| == 1
    ensures |WriterThreads(run[i], b)| <= 1
    ensures WriterThreads(run[i], b) != {} ==> ReaderThreads(run[i], b) == {}
    ensures WriterThreads(run[i], b) == {} ==> run[i].blocks[b].word == |ReaderThreads(run[i], b)|
  {
    RunInv(run, i);
    var s := run[i];
    var lock := s.blocks[b];
    assert BlockInv(s, b);
    forall t: nat
      ensures t in ReaderThreads(s, b) <==> t in lock.readers
      ensures t in WriterThreads(s, b) <==> lock.writer == Some(t)
    {
      assert t < |s.threads| ==> HolderInv(s, t, b);
    }
    assert ReaderThreads(s, b) == lock.readers;
    assert WriterThreads(s, b) == if lock.writer.Some? then {lock.writer.value} else {};
  }

  /** The index that GetNextWritableBlockIndex returns is in range, and until its holder releases
      the block nobody else reads or writes it. */
  lemma AcquiredIsExclusive(run: seq<State>, i: nat, t: nat, u: nat)
    requires IsRun(run) && i < |run| && t < |run[i].threads| && u < |run[i].threads| && u != t
    requires run[i].threads[t].Locked? || run[i].threads[t].Writing?
    ensures var index := run[i].threads[t].index;
      index < |run[i].blocks| && !HoldsToRead(run[i].threads[u], index) && !HoldsToWrite(run[i].threads[u], index)
  {
    RunInv(run, i);
    var s := run[i];
    var index := s.threads[t].index;
    assert PcInv(s, s.threads[t]);
    assert BlockInv(s, index) && HolderInv(s, t, index) && HolderInv(s, u, index);
  }

  // ----- how the search goes on -----

  /** A block has been acquired for writing, and the counter of writes is about to be increased. */
  ghost predicate Acquires(s: State, s': State, t: nat) {
    t < |s.threads| && t < |s'.threads| && s.threads[t].Locked? && s'.threads[t].Writing?
  }

  ghost predicate SomeoneAcquires(s: State, s': State) {
    exists t: nat :: Acquires(s, s', t)
  }

  ghost function Acquisitions(run: seq<State>): nat {
    if |run| < 2 then 0
    else
      var n := |run| - 1;
      Acquisitions(run[..n]) + if SomeoneAcquires(run[n - 1], run[n]) then 1 else 0
  }

  lemma ReaderCounts(s: State, t: nat, s': State)
    requires ReadStep(s, t, s')
    ensures !SomeoneAcquires(s, s') && s'.wroteNum == s.wroteNum
  {
  }

  lemma WriterCounts(s: State, t: nat, s': State)
    requires WriteStep(s, t, s')
    ensures SomeoneAcquires(s, s') <==> s.threads[t].Locked?
    ensures s'.wroteNum == if s.threads[t].Locked? then (s.wroteNum + 1) % UINT32 else s.wroteNum
  {
    if s.threads[t].Locked? {
      assert Acquires(s, s', t);
    }
  }

  /** The counter is the number of acquisitions so far, in 32 bits. */
  lemma {:induction false} WroteNumCounts(run: seq<State>, i: nat)
    requires IsRun(run) && i < |run|
    ensures run[i].wroteNum == Acquisitions(run[..i + 1]) % UINT32
  {
    if i > 0 {
      WroteNumCounts(run, i - 1);
      assert run[..i + 1][..i] == run[..i];
      assert Next(run[i - 1], run[i]);
      var t :| WriteStep(run[i - 1], t, run[i]) || ReadStep(run[i - 1], t, run[i]);
      if WriteStep(run[i - 1], t, run[i]) {
        WriterCounts(run[i - 1], t, run[i]);
      } else {
        ReaderCounts(run[i - 1], t, run[i]);
      }
    }
  }

  lemma MaskedIsRemainder(index: nat, blockNum: nat)
    requires blockNum > 0
    ensures Masked(index, blockNum) == index % blockNum
  {
  }

  lemma NextBlock(index: nat, blockNum: nat)
    requires blockNum > 0
    ensures (index % blockNum + 1) % blockNum == (index + 1) % blockNum
  {
    assert index + 1 == index % blockNum + 1 + index / blockNum * blockNum;
    WholeTurns(index % blockNum + 1, index / blockNum, blockNum);
  }

  /** The search begins at the block that the counter of writes names, and goes round: a probe of a
      block that was free may lock it, and any other leads to the block behind it. */
  lemma ProbesInTurn(s: State, t: nat, s': State)
    requires WriteStep(s, t, s')
    ensures s.threads[t].Outside? ==> s'.threads[t] == Probing(s.wroteNum)
    ensures s.threads[t].Probing? ==>
              var n := |s.blocks|; var b := s.threads[t].index % n;
              if s'.threads[t].Locked? then s'.threads[t] == Locked(b) && s.blocks[b].word == 0
              else s'.threads[t].Probing? && s'.threads[t].index % n == (b + 1) % n && s'.blocks == s.blocks
  {
    if s.threads[t].Probing? {
      MaskedIsRemainder(s.threads[t].index, |s.blocks|);
      NextBlock(s.threads[t].index, |s.blocks|);
    }
  }

  /** Block number d of the search that begins at index. */
  function Turn(index: nat, d: nat, blockNum: nat): (b: nat)
    requires blockNum > 0
    ensures b < blockNum
  {
    (index + d) % blockNum
  }

  ghost predicate IsWriteRun(run: seq<State>, t: nat) {
    run != [] && forall k {:trigger run[k]} | 0 < k < |run| :: WriteStep(run[k - 1], t, run[k])
  }

  /** Undisturbed, the search locks the first free block behind the one it begins with. */
  lemma {:induction false} SearchAlone(s: State, t: nat, d: nat) returns (run: seq<State>)
    requires |s.blocks| > 0 && t < |s.threads| && s.threads[t].Probing?
    requires s.blocks[Turn(s.threads[t].index, d, |s.blocks|)].word == 0
    requires forall e: nat | e < d :: s.blocks[Turn(s.threads[t].index, e, |s.blocks|)].word != 0
    ensures IsWriteRun(run, t) && run[0] == s && |run| == d + 2
    ensures var last := run[d + 1];
      t < |last.threads| && last.threads[t] == Locked(Turn(s.threads[t].index, d, |s.blocks|))
    decreases d
  {
    var n := |s.blocks|;
    var index := s.threads[t].index;
    MaskedIsRemainder(index, n);
    if d == 0 {
      run := [s, SetLock(Goto(s, t, Locked(index % n)), index % n, TakenToWrite(s.blocks[index % n], t))];
    } else {
      var s1 := Goto(s, t, Probing(index % n + 1));
      assert WriteStep(s, t, s1);
      forall e: nat {:trigger Turn(index % n + 1, e, n)}
        ensures Turn(index % n + 1, e, n) == Turn(index, e + 1, n)
      {
        TurnsOn(index, e, n);
      }
      run := SearchAlone(s1, t, d - 1);
      run := [s] + run;
    }
  }

  lemma TurnsOn(index: nat, e: nat, n: nat)
    requires n > 0
    ensures Turn(index % n + 1, e, n) == Turn(index, e + 1, n)
  {
    assert index + e + 1 == index % n + 1 + e + index / n * n;
    WholeTurns(index % n + 1 + e, index / n, n);
  }

  // ----- how often a reader tries -----

  /** A reader that finds the block being written gives up at once, and any other goes on. */
  lemma GivesUpOnWriter(s: State, t: nat, s': State)
    requires Inv(s) && ReadStep(s, t, s') && s.threads[t].Loading?
    ensures s.threads[t].index < |s.blocks|
    ensures s'.threads[t].Outside? <==> s.blocks[s.threads[t].index].writer.Some?
    ensures s'.threads[t].Outside? || (s'.threads[t].Trying? && s'.threads[t].index == s.threads[t].index)
  {
    assert BlockInv(s, s.threads[t].index);
  }

  /** Undisturbed, a reader of a block that nobody writes gets it with its first attempt. */
  lemma ReadAlone(s: State, t: nat, index: nat) returns (s1: State, s2: State, s': State)
    requires Inv(s) && t < |s.threads| && s.threads[t].Outside?
    requires index < |s.blocks| && s.blocks[index].writer.None?
    ensures ReadStep(s, t, s1) && ReadStep(s1, t, s2) && ReadStep(s2, t, s')
    ensures s1.threads[t] == Loading(index, 0) && s'.threads[t] == Reading(index)
    ensures s'.blocks == s.blocks[index := TakenToRead(s.blocks[index], t)]
  {
    assert BlockInv(s, index);
    s1 := Goto(s, t, Loading(index, 0));
    s2 := Goto(s1, t, Trying(index, 0, s.blocks[index].word));
    s' := SetLock(Goto(s2, t, Reading(index)), index, TakenToRead(s.blocks[index], t));
  }

  /** ks are the states in which the thread made its first attempts, one after the other. */
  ghost predicate Attempts(run: seq<State>, t: nat, i: nat, j: nat, ks: seq<nat>) {
    && (forall d {:trigger ks[d]} | 0 <= d < |ks| ::
          i <= ks[d] < j <= |run| && t < |run[ks[d]].threads| && run[ks[d]].threads[t].Trying?
          && run[ks[d]].threads[t].tries == d)
    && (forall d, e {:trigger ks[d], ks[e]} | 0 <= d < e < |ks| :: ks[d] < ks[e])
  }

  /** Since state i the thread has been trying to lock the block for reading. */
  ghost predicate TriesToRead(run: seq<State>, t: nat, i: nat, j: nat) {
    && IsRun(run) && i <= j < |run|
    && (forall k {:trigger run[k]} | i <= k <= j ::
          t < |run[k].threads| && (run[k].threads[t].Loading? || run[k].threads[t].Trying?))
    && run[i].threads[t].Loading? && run[i].threads[t].tries == 0
  }

  lemma AttemptMoves(s: State, s': State, t: nat)
    requires Next(s, s') && t < |s.threads| && t < |s'.threads|
    requires s.threads[t].Loading? || s.threads[t].Trying?
    ensures var pc, pc' := s.threads[t], s'.threads[t];
      pc'.Loading? || pc'.Trying? || pc'.Reading? ==> pc'.index == pc.index
    ensures var pc, pc' := s.threads[t], s'.threads[t];
      || pc' == pc
      || (pc.Loading? && pc'.Trying? && pc'.tries == pc.tries)
      || (pc.Loading? && pc'.Outside? && pc.index < |s.blocks| && s.blocks[pc.index].word < 0)
      || (pc.Trying? && pc'.Loading? && pc'.tries == pc.tries + 1)
      || (pc.Trying? && pc'.Reading?)
      || (pc.Trying? && pc'.Outside? && pc.tries + 1 == MAX_TRY_LOCK_TIMES)
  {
    var u :| WriteStep(s, u, s') || ReadStep(s, u, s');
  }

  lemma {:induction false} AttemptsSoFar(run: seq<State>, t: nat, i: nat, j: nat) returns (ks: seq<nat>)
    requires TriesToRead(run, t, i, j)
    ensures t < |run[j].threads| && (run[j].threads[t].Loading? || run[j].threads[t].Trying?)
    ensures Attempts(run, t, i, j, ks) && |ks| == run[j].threads[t].tries
    ensures t < |run[i].threads| && run[i].threads[t].Loading? && run[j].threads[t].index == run[i].threads[t].index
    decreases j
  {
    ks := [];
    assert t < |run[i].threads| && t < |run[j].threads|;
    if i < j {
      ks := AttemptsSoFar(run, t, i, j - 1);
      assert Next(run[j - 1], run[j]);
      AttemptMoves(run[j - 1], run[j], t);
      if run[j].threads[t].tries > run[j - 1].threads[t].tries {
        ks := ks + [j - 1];
      }
    }
  }

  /** A reader that gives up has found the block being written, or has made five attempts. */
  lemma GivesUpOnlyAfterFive(run: seq<State>, t: nat, i: nat, j: nat) returns (ks: seq<nat>)
    requires TriesToRead(run, t, i, j) && j + 1 < |run| && t < |run[j + 1].threads| && run[j + 1].threads[t].Outside?
    ensures t < |run[i].threads| && run[i].threads[t].Loading? && t < |run[j].threads|
    ensures || (run[j].threads[t].Loading? && run[i].threads[t].index < |run[j].blocks|
                && run[j].blocks[run[i].threads[t].index].word < 0)
            || (|ks| == 5 && Attempts(run, t, i, j + 1, ks))
  {
    ks := AttemptsSoFar(run, t, i, j);
    var k := j + 1;
    assert Next(run[k - 1], run[k]);
    AttemptMoves(run[j], run[k], t);
    if run[j].threads[t].Trying? {
      ks := ks + [j];
    }
  }
}
