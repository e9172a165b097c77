/** The lock word that AtomicRWLock and Block share: 0 is free, -1 is held for writing, and a
    positive value counts the readers.  The word is kept with the threads that hold it, of which
    the code sees only the word. */
module LockWord {
  import opened Options

  const WRITE_EXCLUSIVE := -1

  datatype Lock = Lock(word: int, readers: set<nat>, writer: Option<nat>)

  const FREE_LOCK := Lock(0, {}, None)

  /** The word is -1 if and only if exactly one writer holds the lock, and then no reader does;
      otherwise it is the number of readers. */
  ghost predicate LockInv(l: Lock) {
    && (l.word == WRITE_EXCLUSIVE <==> l.writer.Some?)
    && (l.writer.Some? ==> l.readers == {})
    && (l.writer.None? ==> l.word == |l.readers|)
  }

  /** A compare-and-swap from n to n + 1 that succeeded. */
  ghost function TakenToRead(l: Lock, t: nat): Lock {
    l.(word := l.word + 1, readers := l.readers + {t})
  }

  /** A compare-and-swap from 0 to -1 that succeeded. */
  ghost function TakenToWrite(l: Lock, t: nat): Lock {
    l.(word := WRITE_EXCLUSIVE, writer := Some(t))
  }

  /** fetch_sub(1) by a reader. */
  ghost function ReadReleased(l: Lock, t: nat): Lock {
    l.(word := l.word - 1, readers := l.readers - {t})
  }

  /** fetch_add(1) by the writer. */
  ghost function WriteReleased(l: Lock): Lock {
    l.(word := l.word + 1, writer := None)
  }

  lemma TakeKeeps(l: Lock, t: nat)
    requires LockInv(l)
    ensures l.word >= 0 && t !in l.readers ==> LockInv(TakenToRead(l, t))
    ensures l.word == 0 ==> l.readers == {} && LockInv(TakenToWrite(l, t))
  {
    assert l.word == 0 ==> |l.readers| == 0;
  }

  lemma ReleaseKeeps(l: Lock, t: nat)
    requires LockInv(l)
    ensures t in l.readers ==> LockInv(ReadReleased(l, t))
    ensures l.writer.Some? ==> LockInv(WriteReleased(l))
  {
    assert t in l.readers ==> l.writer.None?;
  }
}
