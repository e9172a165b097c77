/** ConditionNotifier: a ring in shared memory over which any number of notifiers pass small records
    to a listener.

    Claiming a sequence number, writing the record and writing the number behind it are separate
    steps, as are the listener's load of next_seq, its look at the slot's number and its copy of the
    record.  Listeners write nothing to the ring, so one of them stands for all.  Sequence numbers
    are unbounded; a record is read and written in one step.  The ring has 4096 slots (kBufLength);
    the results hold for any number of slots. */
module ConditionNotifier {
  import opened Options
  import opened RingIndex

  /** The record that is passed; nothing is assumed about it. */
  type Info(!new)

  datatype Notifier = Idle | Claimed(sequence: nat, info: Info) | InfoWritten(sequence: nat, info: Info)

  datatype Listener = Detached | Loading | Looking | Copying

  /** `claims[k]` records the record whose Notify claimed sequence number k and `owners` which
      notifiers are on their way with which numbers; `wrote` is the number whose record was written
      last to each slot, and `returned` what the listener has returned since it attached at `first`.
      Four flags record what went amiss: `busy` that a Notify was on its way when the listener
      attached, `overrun` that since then more than `size` numbers were claimed and not returned,
      `early` that the listener took a slot for published while its Notify was still on its way, and
      `stalled` that the Notify of number 0 was still on its way when number `size` was claimed. */
  datatype State = State(
    size: nat, nextSeq: nat, infos: seq<Info>, seqs: seq<nat>, notifiers: seq<Notifier>,
    listener: Listener, next: nat,
    claims: seq<Info>, owners: map<nat, nat>, wrote: seq<Option<nat>>, first: nat, returned: seq<Info>,
    busy: bool, overrun: bool, early: bool, stalled: bool)

  // ----- the steps -----

  /** Fresh shared memory: the number behind every slot is zero. */
  ghost predicate Init(s: State) {
    && s.size >= 1 && |s.infos| == |s.seqs| == s.size && s.nextSeq == 0 && s.claims == [] && s.owners == map[]
    && |s.wrote| == s.size && (forall k {:trigger s.wrote[k]} | 0 <= k < s.size :: s.wrote[k] == None)
    && (forall k {:trigger s.seqs[k]} | 0 <= k < s.size :: s.seqs[k] == 0)
    && (forall q {:trigger s.notifiers[q]} | 0 <= q < |s.notifiers| :: s.notifiers[q].Idle?)
    && s.listener.Detached? && s.next == s.first == 0 && s.returned == []
    && !s.busy && !s.overrun && !s.early && !s.stalled
  }

  ghost predicate Sized(s: State) {
    s.size >= 1 && |s.infos| == |s.seqs| == |s.wrote| == s.size
  }

  ghost function Slot(s: State, sequence: nat): nat
    requires s.size >= 1
  {
    sequence % s.size
  }

  ghost predicate Claim(s: State, q: nat, s': State) {
    && q < |s.notifiers| && s.notifiers[q].Idle? && |s'.claims| == |s.claims| + 1
    && var info := s'.claims[|s.claims|];
    s' == s.(nextSeq := s.nextSeq + 1, claims := s.claims + [info],
             notifiers := s.notifiers[q := Claimed(s.nextSeq, info)], owners := s.owners[s.nextSeq := q],
             overrun := s.overrun || s.nextSeq + 1 > s.next + s.size,
             stalled := s.stalled || (s.nextSeq == s.size && 0 in s.owners))
  }

  ghost predicate WriteInfo(s: State, q: nat, s': State) {
    && Sized(s) && q < |s.notifiers| && s.notifiers[q].Claimed?
    && var Claimed(sequence, info) := s.notifiers[q];
    s' == s.(infos := s.infos[Slot(s, sequence) := info], wrote := s.wrote[Slot(s, sequence) := Some(sequence)],
             notifiers := s.notifiers[q := InfoWritten(sequence, info)])
  }

  ghost predicate WriteSeq(s: State, q: nat, s': State) {
    && Sized(s) && q < |s.notifiers| && s.notifiers[q].InfoWritten?
    && var sequence := s.notifiers[q].sequence;
    s' == s.(seqs := s.seqs[Slot(s, sequence) := sequence], notifiers := s.notifiers[q := Idle],
             owners := s.owners - {sequence})
  }

  ghost predicate NoneInFlight(s: State) {
    forall q {:trigger s.notifiers[q]} | 0 <= q < |s.notifiers| :: s.notifiers[q].Idle?
  }

  /** The constructor takes the current sequence number as the first to listen for. */
  ghost predicate Attach(s: State, s': State) {
    && s.listener.Detached?
    && s' == s.(listener := Loading, next := s.nextSeq, first := s.nextSeq, returned := [],
                busy := !NoneInFlight(s), overrun := false, early := false)
  }

  /** The slot of the next number seems to be published. */
  ghost predicate SeemsPublished(s: State)
    requires Sized(s)
  {
    s.seqs[Slot(s, s.next)] == s.next
  }

  ghost predicate ListenStep(s: State, s': State) {
    && Sized(s)
    && match s.listener
       case Detached => false
       case Loading => s' == s.(listener := if s.nextSeq != s.next then Looking else Loading)
       case Looking =>
         s' == s.(listener := if SeemsPublished(s) then Copying else Loading,
                  early := s.early || (SeemsPublished(s) && s.next in s.owners))
       case Copying =>
         s' == s.(listener := Loading, next := s.next + 1, returned := s.returned + [s.infos[Slot(s, s.next)]])
  }

  ghost predicate Next(s: State, s': State) {
    || (exists q :: Claim(s, q, s') || WriteInfo(s, q, s') || WriteSeq(s, q, s'))
    || Attach(s, s') || ListenStep(s, s')
  }

  // ----- the invariant -----

  ghost predicate NotifierInv(s: State, q: int)
    requires 0 <= q < |s.notifiers|
  {
    var pc := s.notifiers[q];
    !pc.Idle? ==>
      && pc.sequence < |s.claims| && s.claims[pc.sequence] == pc.info
      && pc.sequence in s.owners && s.owners[pc.sequence] == q
  }

  ghost predicate OwnerInv(s: State, k: nat) {
    k in s.owners ==>
      && k < s.nextSeq && s.owners[k] < |s.notifiers|
      && !s.notifiers[s.owners[k]].Idle? && s.notifiers[s.owners[k]].sequence == k
  }

  /** A nonzero number in a slot belongs there and its Notify is done. */
  ghost predicate SlotInv(s: State, k: int)
    requires 0 <= k < |s.seqs|
  {
    s.seqs[k] > 0 ==> s.seqs[k] < s.nextSeq && s.seqs[k] !in s.owners
  }

  ghost predicate RingInv(s: State) {
    && Sized(s) && |s.claims| == s.nextSeq
    && (forall q {:trigger NotifierInv(s, q)} | 0 <= q < |s.notifiers| :: NotifierInv(s, q))
    && (forall k: nat {:trigger OwnerInv(s, k)} :: OwnerInv(s, k))
    && (forall k {:trigger SlotInv(s, k)} | 0 <= k < |s.seqs| :: SlotInv(s, k))
    && (0 in s.owners && !s.stalled ==> s.nextSeq <= s.size)
    && s.first <= s.next && (s.early ==> s.first == 0)
  }

  /** The numbers whose records the listener gets right: all of them, unless it was early; then not
      number 0 and, when the Notify of number 0 stalled, no other number of its slot either. */
  ghost predicate Covered(s: State, k: nat) {
    s.early ==> if s.stalled then s.size >= 1 && Slot(s, k) != 0 else k > 0
  }

  /** A number that the listener still has to see: published in its slot, or its Notify pending. */
  ghost predicate Waits(s: State, k: nat)
    requires Sized(s)
  {
    k < |s.claims| && (k in s.owners || (s.seqs[Slot(s, k)] == k && s.infos[Slot(s, k)] == s.claims[k]))
  }

  /** A notifier between its two writes has its record in its slot. */
  ghost predicate Halfway(s: State, q: int)
    requires Sized(s) && 0 <= q < |s.notifiers|
  {
    s.notifiers[q].InfoWritten? && Covered(s, s.notifiers[q].sequence) ==>
      s.infos[Slot(s, s.notifiers[q].sequence)] == s.notifiers[q].info
  }

  /** What the notifiers keep for a listener that was never overrun: all numbers before its next one
      are done, and the covered ones from it on wait for it. */
  ghost predicate WindowInv(s: State) {
    && RingInv(s) && s.next <= s.nextSeq <= s.next + s.size
    && (forall k: nat {:trigger k in s.owners} | k in s.owners :: k >= s.next || (s.early && k == 0))
    && (forall k: nat {:trigger Waits(s, k)} | s.next <= k < s.nextSeq && Covered(s, k) :: Waits(s, k))
    && (forall q {:trigger Halfway(s, q)} | 0 <= q < |s.notifiers| :: Halfway(s, q))
  }

  ghost predicate RightRecord(s: State, k: nat) {
    k < |s.returned| && Covered(s, s.first + k) ==>
      s.first + k < |s.claims| && s.returned[k] == s.claims[s.first + k]
  }

  ghost predicate ListenerInv(s: State) {
    && WindowInv(s) && s.next == s.first + |s.returned|
    && (s.listener.Looking? || s.listener.Copying? ==> s.next < s.nextSeq)
    && (s.listener.Copying? ==> s.next !in s.owners || (s.early && s.next == 0))
    && (forall k: nat {:trigger RightRecord(s, k)} :: RightRecord(s, k))
  }

  /** A listener that attached with no Notify on its way and was never overrun. */
  ghost predicate Kept(s: State) {
    !s.listener.Detached? && !s.busy && !s.overrun
  }

  ghost predicate Inv(s: State) {
    RingInv(s) && (Kept(s) ==> ListenerInv(s))
  }

  lemma InitInv(s: State)
    requires Init(s)
    ensures Inv(s)
  {
  }

  // ----- every step keeps the invariant -----

  lemma NotifyRing(s: State, q: nat, s': State)
    requires RingInv(s) && (Claim(s, q, s') || WriteInfo(s, q, s') || WriteSeq(s, q, s'))
    ensures RingInv(s')
  {
    assert NotifierInv(s, q);
    forall p | 0 <= p < |s'.notifiers|
      ensures NotifierInv(s', p)
    {
      assert NotifierInv(s, p);
    }
    forall k: nat
      ensures OwnerInv(s', k)
    {
      assert OwnerInv(s, k);
    }
    forall k | 0 <= k < |s'.seqs|
      ensures SlotInv(s', k)
    {
      assert SlotInv(s, k);
    }
  }

  /** What a notifier's step leaves covered was covered before: number 0 has slot 0. */
  lemma CoveredBefore(s: State, q: nat, s': State, k: nat)
    requires Sized(s) && (Claim(s, q, s') || WriteInfo(s, q, s') || WriteSeq(s, q, s')) && Covered(s', k)
    ensures Covered(s, k)
  {
    assert 0 % s.size == 0;
  }

  lemma ClaimWindow(s: State, q: nat, s': State)
    requires WindowInv(s) && Claim(s, q, s') && !s'.overrun
    ensures WindowInv(s')
  {
    NotifyRing(s, q, s');
    forall k: nat | Covered(s', k)
      ensures Covered(s, k)
    {
      CoveredBefore(s, q, s', k);
    }
    forall k: nat | s'.next <= k < s'.nextSeq && Covered(s', k)
      ensures Waits(s', k)
    {
      assert k < s.nextSeq ==> Waits(s, k);
    }
    forall p | 0 <= p < |s'.notifiers|
      ensures Halfway(s', p)
    {
      assert Halfway(s, p);
    }
  }

  lemma NearSlots(j: nat, k: nat, low: nat, n: nat)
    requires low <= j < low + n && low <= k < low + n && j != k
    ensures j % n != k % n
  {
    if j < k {
      SlotsDiffer(j, k, n);
    } else {
      SlotsDiffer(k, j, n);
    }
  }

  lemma SmallSlot(k: nat, n: nat)
    requires k < n
    ensures k % n == k
  {
  }

  /** A number that is being written and another one that the listener still needs have different
      slots: both are in the window, or the first is number 0 on its way behind an early listener. */
  lemma OtherSlot(s: State, mine: nat, k: nat)
    requires WindowInv(s) && mine in s.owners && k != mine
    requires (k in s.owners || s.next <= k < s.nextSeq) && Covered(s, k)
    ensures Slot(s, k) != Slot(s, mine)
  {
    assert OwnerInv(s, mine) && OwnerInv(s, k);
    SmallSlot(0, s.size);
    if mine >= s.next {
      NearSlots(k, mine, s.next, s.size);
    } else if !s.stalled {
      SmallSlot(k, s.size);
    }
  }

  lemma WriteInfoWindow(s: State, q: nat, s': State)
    requires WindowInv(s) && WriteInfo(s, q, s')
    ensures WindowInv(s')
  {
    NotifyRing(s, q, s');
    var mine := s.notifiers[q].sequence;
    assert NotifierInv(s, q);
    forall k: nat | s'.next <= k < s'.nextSeq && Covered(s', k)
      ensures Waits(s', k)
    {
      assert Covered(s, k) && Waits(s, k);
      if k != mine {
        OtherSlot(s, mine, k);
      }
    }
    forall p | 0 <= p < |s'.notifiers|
      ensures Halfway(s', p)
    {
      assert Halfway(s, p) && NotifierInv(s, p);
      var k := s.notifiers[p];
      if p != q && k.InfoWritten? && Covered(s, k.sequence) {
        OtherSlot(s, mine, k.sequence);
      }
    }
  }

  lemma WriteSeqWindow(s: State, q: nat, s': State)
    requires WindowInv(s) && WriteSeq(s, q, s')
    ensures WindowInv(s')
  {
    NotifyRing(s, q, s');
    var mine := s.notifiers[q].sequence;
    assert NotifierInv(s, q) && Halfway(s, q);
    forall k: nat | s'.next <= k < s'.nextSeq && Covered(s', k)
      ensures Waits(s', k)
    {
      assert Covered(s, k) && Waits(s, k);
      if k != mine {
        OtherSlot(s, mine, k);
      }
    }
    forall p | 0 <= p < |s'.notifiers|
      ensures Halfway(s', p)
    {
      assert Halfway(s, p);
    }
  }

  lemma RecordsKept(s: State, s': State)
    requires ListenerInv(s) && WindowInv(s') && s'.next == s.next && s'.first == s.first && s'.returned == s.returned
    requires s.claims <= s'.claims && s'.listener == s.listener
    requires forall k: nat {:trigger Covered(s', k)} | Covered(s', k) :: Covered(s, k)
    requires s.nextSeq <= s'.nextSeq && forall k: nat | k in s'.owners && k < s.nextSeq :: k in s.owners
    requires s'.early == s.early
    ensures ListenerInv(s')
  {
    forall k: nat
      ensures RightRecord(s', k)
    {
      assert RightRecord(s, k);
    }
  }

  lemma NotifyInv(s: State, q: nat, s': State)
    requires Inv(s) && (Claim(s, q, s') || WriteInfo(s, q, s') || WriteSeq(s, q, s'))
    ensures Inv(s')
  {
    NotifyRing(s, q, s');
    if Kept(s') {
      if Claim(s, q, s') {
        ClaimWindow(s, q, s');
      } else if WriteInfo(s, q, s') {
        WriteInfoWindow(s, q, s');
      } else {
        WriteSeqWindow(s, q, s');
      }
      forall k: nat | Covered(s', k)
        ensures Covered(s, k)
      {
        CoveredBefore(s, q, s', k);
      }
      RecordsKept(s, s');
    }
  }

  /** The ring does not depend on the listener. */
  lemma SameRing(s: State, s': State)
    requires RingInv(s) && s'.first <= s'.next && (s'.early ==> s'.first == 0)
    requires s' == s.(listener := s'.listener, next := s'.next, first := s'.first, returned := s'.returned,
                      busy := s'.busy, overrun := s'.overrun, early := s'.early)
    ensures RingInv(s')
  {
    assert forall q {:trigger NotifierInv(s', q)} | 0 <= q < |s.notifiers| :: NotifierInv(s, q) ==> NotifierInv(s', q);
    forall k: nat
      ensures OwnerInv(s', k)
    {
      assert OwnerInv(s, k);
    }
    forall k | 0 <= k < |s'.seqs|
      ensures SlotInv(s', k)
    {
      assert SlotInv(s, k);
    }
  }

  lemma AttachInv(s: State, s': State)
    requires Inv(s) && Attach(s, s')
    ensures Inv(s')
  {
    SameRing(s, s');
    if Kept(s') {
      forall k: nat
        ensures k !in s'.owners
      {
        assert OwnerInv(s, k);
      }
    }
  }

  /** Only number 0 can be taken for published too early. */
  lemma EarlyIsZero(s: State)
    requires RingInv(s) && s.next in s.owners && s.seqs[Slot(s, s.next)] == s.next
    ensures s.next == 0 && s.first == 0
  {
    assert SlotInv(s, Slot(s, s.next));
  }

  lemma ListenStepInv(s: State, s': State)
    requires Inv(s) && ListenStep(s, s')
    ensures Inv(s')
  {
    if s.listener.Looking? && s.next in s.owners && s.seqs[Slot(s, s.next)] == s.next {
      EarlyIsZero(s);
    }
    SameRing(s, s');
    if Kept(s') {
      if s.listener.Copying? {
        CopyKeeps(s, s');
      } else {
        LookKeeps(s, s');
      }
    }
  }

  /** The look does not move the listener, and at worst covers less than before. */
  lemma LookKeepsWindow(s: State, s': State)
    requires RingInv(s') && ListenerInv(s) && ListenStep(s, s') && !s.listener.Copying?
    ensures WindowInv(s')
  {
    forall k: nat | s'.next <= k < s'.nextSeq && Covered(s', k)
      ensures Waits(s', k)
    {
      assert Waits(s, k);
    }
    forall p | 0 <= p < |s'.notifiers|
      ensures Halfway(s', p)
    {
      assert Halfway(s, p);
    }
  }

  lemma LookKeeps(s: State, s': State)
    requires RingInv(s') && ListenerInv(s) && ListenStep(s, s') && !s.listener.Copying?
    ensures ListenerInv(s')
  {
    LookKeepsWindow(s, s');
    if s.next in s.owners && s.seqs[Slot(s, s.next)] == s.next {
      EarlyIsZero(s);
    }
    forall k: nat
      ensures RightRecord(s', k)
    {
      assert RightRecord(s, k);
    }
  }

  lemma CopyKeepsWindow(s: State, s': State)
    requires RingInv(s') && ListenerInv(s) && ListenStep(s, s') && s.listener.Copying?
    ensures WindowInv(s')
  {
    forall k: nat | s'.next <= k < s'.nextSeq && Covered(s', k)
      ensures Waits(s', k)
    {
      assert Waits(s, k);
    }
    forall p | 0 <= p < |s'.notifiers|
      ensures Halfway(s', p)
    {
      assert Halfway(s, p);
    }
  }

  lemma CopyKeepsRecords(s: State, s': State, k: nat)
    requires ListenerInv(s) && ListenStep(s, s') && s.listener.Copying?
    ensures RightRecord(s', k)
  {
    assert RightRecord(s, k);
    if k == |s.returned| && Covered(s, s.next) {
      assert Waits(s, s.next);
      assert s.next !in s.owners;
    }
  }

  lemma CopyKeeps(s: State, s': State)
    requires RingInv(s') && ListenerInv(s) && ListenStep(s, s') && s.listener.Copying?
    ensures ListenerInv(s')
  {
    CopyKeepsWindow(s, s');
    forall k: nat
      ensures RightRecord(s', k)
    {
      CopyKeepsRecords(s, s', k);
    }
  }

  // ----- runs -----

  ghost predicate IsRun(run: seq<State>) {
    && run != [] && Init(run[0])
    && (forall i {:trigger Next(run[i - 1], run[i])} | 0 < i < |run| :: Next(run[i - 1], run[i]))
  }

  lemma {:induction false} RunInv(run: seq<State>, i: nat)
    requires IsRun(run) && i < |run|
    ensures Inv(run[i])
  {
    if i == 0 {
      InitInv(run[0]);
    } else {
      RunInv(run, i - 1);
      var s, s' := run[i - 1], run[i];
      assert Next(s, s');
      if q: nat :| Claim(s, q, s') || WriteInfo(s, q, s') || WriteSeq(s, q, s') {
        NotifyInv(s, q, s');
      } else if Attach(s, s') {
        AttachInv(s, s');
      } else {
        ListenStepInv(s, s');
      }
    }
  }

  /** A listener that attached at any number with no Notify on its way, was never overrun and never
      early has returned exactly the records of the numbers from there on: in order, none skipped
      and none twice. */
  lemma ReturnsTheClaims(run: seq<State>, i: nat)
    requires IsRun(run) && i < |run| && Kept(run[i]) && !run[i].early
    ensures run[i].first <= run[i].next <= |run[i].claims|
    ensures run[i].returned == run[i].claims[run[i].first..run[i].next]
  {
    RunInv(run, i);
    var s := run[i];
    forall k: nat | k < |s.returned|
      ensures s.returned[k] == s.claims[s.first..s.next][k]
    {
      assert RightRecord(s, k);
    }
  }

  /** Only a listener that attached at number 0 can be early. */
  lemma EarlyOnlyFromZero(run: seq<State>, i: nat)
    requires IsRun(run) && i < |run|
    ensures run[i].early ==> run[i].first == 0
  {
    RunInv(run, i);
  }

  /** Even behind an early listener every record from number 1 on is right unless the Notify of
      number 0 was still on its way when number `size` was claimed; and then still every one whose
      number is no multiple of the ring's size, in particular those below it. */
  lemma LaterRecordsAreRight(run: seq<State>, i: nat, k: nat)
    requires IsRun(run) && i < |run| && Kept(run[i])
    requires k < |run[i].returned| && run[i].first + k >= 1 && run[i].size >= 1
    requires !run[i].stalled || (run[i].first + k) % run[i].size != 0
    ensures run[i].first + k < |run[i].claims| && run[i].returned[k] == run[i].claims[run[i].first + k]
  {
    RunInv(run, i);
    assert RightRecord(run[i], k);
  }

  lemma RecordsBelowSizeAreRight(run: seq<State>, i: nat, k: nat)
    requires IsRun(run) && i < |run| && Kept(run[i]) && run[i].first == 0
    requires 1 <= k < |run[i].returned| && k < run[i].size
    ensures k < |run[i].claims| && run[i].returned[k] == run[i].claims[k]
  {
    assert k % run[i].size == k;
    LaterRecordsAreRight(run, i, k);
  }

  /** It sees a number as soon as its Notify is done: the look at the slot then succeeds. */
  lemma SeesWhatIsDone(run: seq<State>, i: nat)
    requires IsRun(run) && i < |run| && Kept(run[i]) && Covered(run[i], run[i].next)
    requires run[i].next < run[i].nextSeq
    requires forall q | 0 <= q < |run[i].notifiers| ::
               !run[i].notifiers[q].Idle? ==> run[i].notifiers[q].sequence != run[i].next
    ensures Sized(run[i]) && run[i].seqs[Slot(run[i], run[i].next)] == run[i].next
  {
    RunInv(run, i);
    assert Waits(run[i], run[i].next) && OwnerInv(run[i], run[i].next);
  }

  // ----- exactly which record is returned -----

  /** A slot holds the record written to it last, or what the fresh memory held. */
  ghost predicate SlotHolds(s: State, size: nat, slot: nat, blank: Info) {
    && Sized(s) && s.size == size && slot < size
    && match s.wrote[slot]
       case None => s.infos[slot] == blank
       case Some(w) => w < |s.claims| && s.infos[slot] == s.claims[w]
  }

  lemma WriteInfoHolds(s: State, q: nat, s': State, size: nat, slot: nat, blank: Info)
    requires RingInv(s) && SlotHolds(s, size, slot, blank) && WriteInfo(s, q, s')
    ensures SlotHolds(s', size, slot, blank)
  {
    assert NotifierInv(s, q);
  }

  /** No other step writes a record. */
  lemma NotifyHolds(s: State, q: nat, s': State, size: nat, slot: nat, blank: Info)
    requires SlotHolds(s, size, slot, blank) && (Claim(s, q, s') || WriteSeq(s, q, s'))
    ensures SlotHolds(s', size, slot, blank)
  {
  }

  lemma ListenerHolds(s: State, s': State, size: nat, slot: nat, blank: Info)
    requires SlotHolds(s, size, slot, blank) && (Attach(s, s') || ListenStep(s, s'))
    ensures SlotHolds(s', size, slot, blank)
  {
  }

  lemma StepHolds(s: State, s': State, size: nat, slot: nat, blank: Info)
    requires RingInv(s) && SlotHolds(s, size, slot, blank) && Next(s, s')
    ensures SlotHolds(s', size, slot, blank)
  {
    if q: nat :| WriteInfo(s, q, s') {
      WriteInfoHolds(s, q, s', size, slot, blank);
    } else if q: nat :| Claim(s, q, s') || WriteSeq(s, q, s') {
      NotifyHolds(s, q, s', size, slot, blank);
    } else {
      ListenerHolds(s, s', size, slot, blank);
    }
  }

  lemma {:induction false} RunHolds(run: seq<State>, i: nat, slot: nat)
    requires IsRun(run) && i < |run| && slot < run[0].size
    ensures Sized(run[0]) && SlotHolds(run[i], run[0].size, slot, run[0].infos[slot])
  {
    if i > 0 {
      RunHolds(run, i - 1, slot);
      RunInv(run, i - 1);
      assert Next(run[i - 1], run[i]);
      StepHolds(run[i - 1], run[i], run[0].size, slot, run[0].infos[slot]);
    }
  }

  /** No listener gets ahead of the claimed numbers. */
  ghost predicate NotAhead(s: State) {
    s.next <= s.nextSeq && (s.listener.Looking? || s.listener.Copying? ==> s.next < s.nextSeq)
  }

  lemma StaysNotAhead(s: State, s': State)
    requires NotAhead(s) && Next(s, s')
    ensures NotAhead(s')
  {
  }

  lemma {:induction false} NeverAhead(run: seq<State>, i: nat)
    requires IsRun(run) && i < |run|
    ensures NotAhead(run[i])
  {
    if i > 0 {
      NeverAhead(run, i - 1);
      assert Next(run[i - 1], run[i]);
      StaysNotAhead(run[i - 1], run[i]);
    }
  }

  /** For any listener, overrun or not: the record it returns for a number is right if and only if
      the record written last to the slot is that of the number, or happens to be the same. */
  lemma RecordIff(run: seq<State>, i: nat)
    requires IsRun(run) && i + 1 < |run| && run[i].listener.Copying? && ListenStep(run[i], run[i + 1])
    ensures Sized(run[i]) && Sized(run[0]) && run[i].size == run[0].size && run[i].next < |run[i].claims|
    ensures var s := run[i]; var slot := Slot(s, s.next); var returned := run[i + 1].returned;
      && |returned| == |s.returned| + 1
      && (returned[|s.returned|] == s.claims[s.next] <==>
            match s.wrote[slot]
            case None => run[0].infos[slot] == s.claims[s.next]
            case Some(w) => w < |s.claims| && s.claims[w] == s.claims[s.next])
  {
    RunInv(run, i);
    NeverAhead(run, i);
    RunHolds(run, i, 0);
    RunHolds(run, i, Slot(run[i], run[i].next));
  }

  // ----- when a listener returns nothing any more -----

  /** The listener waits for its next number, whose Notify is done. */
  ghost predicate Awaits(s: State) {
    && Sized(s) && (s.listener.Loading? || s.listener.Looking?)
    && s.next < s.nextSeq && s.next !in s.owners
  }

  /** But behind the slot stands another number. */
  ghost predicate Stuck(s: State) {
    Awaits(s) && s.seqs[Slot(s, s.next)] != s.next
  }

  lemma StuckNotify(s: State, q: nat, s': State)
    requires RingInv(s) && Stuck(s) && (Claim(s, q, s') || WriteInfo(s, q, s') || WriteSeq(s, q, s'))
    ensures Stuck(s') && s'.returned == s.returned
  {
    assert NotifierInv(s, q);
  }

  lemma StuckListen(s: State, s': State)
    requires Stuck(s) && (Attach(s, s') || ListenStep(s, s'))
    ensures Stuck(s') && s'.returned == s.returned
  {
  }

  lemma {:induction false} StuckForever(run: seq<State>, i: nat, j: nat)
    requires IsRun(run) && i <= j < |run| && Stuck(run[i])
    ensures Stuck(run[j]) && run[j].returned == run[i].returned
  {
    if i < j {
      StuckForever(run, i, j - 1);
      RunInv(run, j - 1);
      var s, s' := run[j - 1], run[j];
      assert Next(s, s');
      if q: nat :| Claim(s, q, s') || WriteInfo(s, q, s') || WriteSeq(s, q, s') {
        StuckNotify(s, q, s');
      } else {
        StuckListen(s, s');
      }
    }
  }

  ghost predicate ReturnsMore(run: seq<State>, longer: seq<State>) {
    && IsRun(longer) && run != [] && run <= longer
    && |longer[|longer| - 1].returned| > |run[|run| - 1].returned|
  }

  ghost predicate MayReturnMore(run: seq<State>) {
    exists longer :: ReturnsMore(run, longer)
  }

  lemma ListensOn(run: seq<State>) returns (longer: seq<State>)
    requires IsRun(run) && Awaits(run[|run| - 1]) && !Stuck(run[|run| - 1])
    ensures ReturnsMore(run, longer)
  {
    var s := run[|run| - 1];
    var s1 := s.(listener := Looking);
    longer := run;
    if s.listener.Loading? {
      assert ListenStep(s, s1);
      longer := run + [s1];
    }
    var s2 := s1.(listener := Copying);
    assert ListenStep(s1, s2);
    longer := longer + [s2];
    assert IsRun(longer);
    var s3 := s2.(listener := Loading, next := s.next + 1, returned := s.returned + [s.infos[Slot(s, s.next)]]);
    assert ListenStep(s2, s3);
    longer := longer + [s3];
  }

  /** The exact condition, for any listener: once the Notify of its next number is done, it will
      ever return another record if and only if the slot still shows that number.  It does not
      after an overrun, or after a late write by number 0. */
  lemma ReturnsMoreIff(run: seq<State>)
    requires IsRun(run) && Awaits(run[|run| - 1])
    ensures MayReturnMore(run) <==> !Stuck(run[|run| - 1])
  {
    if Stuck(run[|run| - 1]) {
      if longer :| ReturnsMore(run, longer) {
        StuckForever(longer, |run| - 1, |longer| - 1);
      }
    } else {
      var longer := ListensOn(run);
    }
  }

  // ----- number 0 -----

  /** The Notify of number 0 has not written its record yet. */
  ghost predicate ZeroUnwritten(s: State) {
    0 in s.owners && s.owners[0] < |s.notifiers| && s.notifiers[s.owners[0]].Claimed?
  }

  /** Until the ring has gone round once, slot 0 holds what the memory held at first, and the record
      of number 0 from the moment it is written. */
  ghost predicate ZeroSlot(s: State, blank: Info) {
    Sized(s) && s.nextSeq <= s.size ==>
      s.infos[0] == if s.claims == [] || ZeroUnwritten(s) then blank else s.claims[0]
  }

  lemma ClaimZero(s: State, q: nat, s': State, blank: Info)
    requires RingInv(s) && ZeroSlot(s, blank) && Claim(s, q, s')
    ensures ZeroSlot(s', blank)
  {
    assert OwnerInv(s, 0);
  }

  /** Before the ring has gone round, only number 0 is written to slot 0. */
  lemma WriteInfoZero(s: State, q: nat, s': State, blank: Info)
    requires RingInv(s) && ZeroSlot(s, blank) && WriteInfo(s, q, s')
    ensures ZeroSlot(s', blank)
  {
    var mine := s.notifiers[q].sequence;
    assert NotifierInv(s, q) && OwnerInv(s, 0);
    if s.nextSeq <= s.size {
      SmallSlot(mine, s.size);
    }
  }

  lemma WriteSeqZero(s: State, q: nat, s': State, blank: Info)
    requires RingInv(s) && ZeroSlot(s, blank) && WriteSeq(s, q, s')
    ensures ZeroSlot(s', blank)
  {
    assert NotifierInv(s, q) && OwnerInv(s, 0);
  }

  lemma StepZero(s: State, s': State, blank: Info)
    requires RingInv(s) && ZeroSlot(s, blank) && Next(s, s')
    ensures ZeroSlot(s', blank)
  {
    if q: nat :| Claim(s, q, s') {
      ClaimZero(s, q, s', blank);
    } else if q: nat :| WriteInfo(s, q, s') {
      WriteInfoZero(s, q, s', blank);
    } else if q: nat :| WriteSeq(s, q, s') {
      WriteSeqZero(s, q, s', blank);
    } else {
      ListenerKeepsZero(s, s', blank);
    }
  }

  lemma ListenerKeepsZero(s: State, s': State, blank: Info)
    requires ZeroSlot(s, blank) && (Attach(s, s') || ListenStep(s, s'))
    ensures ZeroSlot(s', blank)
  {
  }

  lemma {:induction false} RunZero(run: seq<State>, i: nat)
    requires IsRun(run) && i < |run|
    ensures Sized(run[0]) && ZeroSlot(run[i], run[0].infos[0])
  {
    if i > 0 {
      RunZero(run, i - 1);
      RunInv(run, i - 1);
      StepZero(run[i - 1], run[i], run[0].infos[0]);
    }
  }

  /** The record returned for number 0 is right if and only if, when it is copied, the Notify of
      number 0 has written it, or the fresh memory happened to hold the same. */
  lemma RecordZeroIff(run: seq<State>, i: nat)
    requires IsRun(run) && i + 1 < |run| && Kept(run[i]) && run[i].listener.Copying? && run[i].next == 0
    requires ListenStep(run[i], run[i + 1])
    ensures |run[i + 1].returned| == 1 && run[i].claims != [] && Sized(run[0])
    ensures run[i + 1].returned[0] == run[i].claims[0] <==>
            !ZeroUnwritten(run[i]) || run[0].infos[0] == run[i].claims[0]
  {
    RunInv(run, i);
    RunZero(run, i);
    assert Slot(run[i], 0) == 0;
  }

  lemma Extend(run: seq<State>, s: State) returns (run': seq<State>)
    requires IsRun(run) && Next(run[|run| - 1], s)
    ensures IsRun(run') && run'[0] == run[0] && run'[|run'| - 1] == s
  {
    run' := run + [s];
  }

  /** The listener has returned number 0 while its Notify, by notifier 0, has written nothing, and
      everything claimed since then. */
  ghost predicate BehindZero(s: State, info: Info) {
    && RingInv(s) && Kept(s) && s.first == 0 && s.listener.Loading? && |s.notifiers| >= 2
    && s.next == s.nextSeq == |s.returned| && 1 <= s.nextSeq <= s.size
    && s.notifiers[0] == Claimed(0, info) && s.notifiers[1].Idle?
  }

  /** Fresh memory already holds a zero behind slot 0, so a listener may return a record before the
      Notify that claimed number 0 has written one. */
  lemma ZeroIsReadTooEarly(s: State, info: Info) returns (run: seq<State>)
    requires Init(s) && |s.notifiers| >= 2
    ensures IsRun(run) && run[0] == s
    ensures var last := run[|run| - 1];
      && BehindZero(last, info) && last.size == s.size && last.claims == [info] && last.returned == [s.infos[0]]
  {
    var s1 := s.(listener := Loading);
    assert Attach(s, s1);
    var s2 := s1.(nextSeq := 1, claims := [info], notifiers := s1.notifiers[0 := Claimed(0, info)],
                  owners := s1.owners[0 := 0]);
    assert Claim(s1, 0, s2);
    var s3 := s2.(listener := Looking);
    assert ListenStep(s2, s3);
    var s4 := s3.(listener := Copying, early := true);
    assert ListenStep(s3, s4);
    var s5 := s4.(listener := Loading, next := 1, returned := [s4.infos[0]]);
    assert ListenStep(s4, s5);
    run := [s, s1, s2, s3, s4, s5];
    RunInv(run, 5);
  }

  /** Notifier 1 writes and publishes the record it has claimed a number for. */
  lemma PublishOnce(run: seq<State>) returns (run': seq<State>)
    requires IsRun(run)
    requires var s := run[|run| - 1]; RingInv(s) && |s.notifiers| >= 2 && s.notifiers[1].Claimed?
    ensures IsRun(run') && run'[0] == run[0]
    ensures var s, s' := run[|run| - 1], run'[|run'| - 1];
      var Claimed(k, info) := s.notifiers[1]; var slot := Slot(s, k);
      s' == s.(owners := s.owners - {k}, infos := s.infos[slot := info], wrote := s.wrote[slot := Some(k)],
               seqs := s.seqs[slot := k], notifiers := s.notifiers[1 := Idle])
  {
    var s := run[|run| - 1];
    var Claimed(k, info) := s.notifiers[1];
    var s1 := s.(infos := s.infos[Slot(s, k) := info], wrote := s.wrote[Slot(s, k) := Some(k)],
                 notifiers := s.notifiers[1 := InfoWritten(k, info)]);
    assert WriteInfo(s, 1, s1);
    run' := Extend(run, s1);
    var s2 := s1.(seqs := s1.seqs[Slot(s, k) := k], notifiers := s1.notifiers[1 := Idle], owners := s1.owners - {k});
    assert WriteSeq(s1, 1, s2);
    assert s2.notifiers == s.notifiers[1 := Idle];
    run' := Extend(run', s2);
  }

  /** Notifier 1 passes one record. */
  lemma NotifyOnce(run: seq<State>, info: Info) returns (run': seq<State>)
    requires IsRun(run)
    requires var s := run[|run| - 1]; RingInv(s) && |s.notifiers| >= 2 && s.notifiers[1].Idle? && s.nextSeq == s.next
    ensures IsRun(run') && run'[0] == run[0]
    ensures var s, s' := run[|run| - 1], run'[|run'| - 1]; var slot := Slot(s, s.nextSeq);
      s' == s.(nextSeq := s.nextSeq + 1, claims := s.claims + [info], owners := s.owners - {s.nextSeq},
               infos := s.infos[slot := info], wrote := s.wrote[slot := Some(s.nextSeq)],
               seqs := s.seqs[slot := s.nextSeq], stalled := s'.stalled)
  {
    var s := run[|run| - 1];
    var k := s.nextSeq;
    var s1 := s.(nextSeq := k + 1, claims := s.claims + [info], notifiers := s.notifiers[1 := Claimed(k, info)],
                 owners := s.owners[k := 1], stalled := s.stalled || (k == s.size && 0 in s.owners));
    assert Claim(s, 1, s1);
    run' := Extend(run, s1);
    NotifyRing(s, 1, s1);
    run' := PublishOnce(run');
    assert s.owners[k := 1] - {k} == s.owners - {k} && s1.notifiers[1 := Idle] == s.notifiers;
  }

  /** The listener returns one record. */
  lemma ListenOnce(run: seq<State>) returns (run': seq<State>)
    requires IsRun(run)
    requires var s := run[|run| - 1];
      Sized(s) && s.listener.Loading? && s.next < s.nextSeq && s.next !in s.owners && s.seqs[Slot(s, s.next)] == s.next
    ensures IsRun(run') && run'[0] == run[0]
    ensures var s, s' := run[|run| - 1], run'[|run'| - 1];
      s' == s.(next := s.next + 1, returned := s.returned + [s.infos[Slot(s, s.next)]])
  {
    var s := run[|run| - 1];
    var s1 := s.(listener := Looking);
    assert ListenStep(s, s1);
    run' := Extend(run, s1);
    var s2 := s1.(listener := Copying);
    assert ListenStep(s1, s2);
    run' := Extend(run', s2);
    var s3 := s2.(listener := Loading, next := s.next + 1, returned := s.returned + [s.infos[Slot(s, s.next)]]);
    assert ListenStep(s2, s3);
    run' := Extend(run', s3);
  }

  lemma {:induction false} OnceRound(run: seq<State>, info: Info) returns (run': seq<State>)
    requires IsRun(run) && BehindZero(run[|run| - 1], info)
    ensures IsRun(run') && run'[0] == run[0] && BehindZero(run'[|run'| - 1], info)
    ensures run'[|run'| - 1].nextSeq == run'[|run'| - 1].size == run[|run| - 1].size
    decreases run[|run| - 1].size - run[|run| - 1].nextSeq
  {
    run' := run;
    var s := run[|run| - 1];
    if s.nextSeq < s.size {
      assert OwnerInv(s, s.nextSeq);
      run' := NotifyOnce(run, info);
      run' := ListenOnce(run');
      RunInv(run', |run'| - 1);
      run' := OnceRound(run', info);
    }
  }

  /** The stalled Notify of number 0 can spoil a later record too: after `size` numbers slot 0 comes
      around, number `size` is published there, and number 0 is written over it before it is
      copied.  The listener has attached with no Notify on its way and is never overrun. */
  lemma StalledZeroSpoilsSize(s: State, stale: Info, info: Info) returns (run: seq<State>)
    requires Init(s) && |s.notifiers| >= 2 && stale != info
    ensures IsRun(run) && run[0] == s
    ensures var last := run[|run| - 1];
      && Kept(last) && last.first == 0 && s.size < |last.returned| && s.size < |last.claims|
      && last.claims[s.size] == info && last.returned[s.size] == stale
  {
    run := ZeroIsReadTooEarly(s, stale);
    run := OnceRound(run, stale);
    var s1 := run[|run| - 1];
    assert OwnerInv(s1, s1.nextSeq);
    run := NotifyOnce(run, info);
    run := OverwriteAndCopy(run, stale);
  }

  lemma OverwriteAndCopy(run: seq<State>, stale: Info) returns (run': seq<State>)
    requires IsRun(run)
    requires var s := run[|run| - 1];
      && Sized(s) && Kept(s) && s.listener.Loading? && s.next == s.size == |s.returned| && s.next < s.nextSeq
      && s.next !in s.owners && s.seqs[Slot(s, s.next)] == s.next
      && |s.notifiers| >= 2 && s.notifiers[0] == Claimed(0, stale)
    ensures IsRun(run') && run'[0] == run[0]
    ensures var s, s' := run[|run| - 1], run'[|run'| - 1];
      s' == s.(listener := Loading, next := s.next + 1, returned := s.returned + [stale],
               infos := s'.infos, wrote := s'.wrote, notifiers := s'.notifiers)
  {
    var s := run[|run| - 1];
    SlotsMeet(0, s.size);
    var s1 := s.(infos := s.infos[0 := stale], wrote := s.wrote[0 := Some(0)],
                 notifiers := s.notifiers[0 := InfoWritten(0, stale)]);
    assert WriteInfo(s, 0, s1);
    run' := Extend(run, s1);
    run' := ListenOnce(run');
  }
}
