/** RecordViewer: the messages of several record files, on chosen channels and in a time range, in
    the order of their times.  The viewer reads all files window by window and merges each window
    in a buffer ordered by time. */
module RecordViewers {
  import opened Options
  import opened RecordReaders

  const STEP_TIME: nat := 1_000_000_000
  const BUFFER_MIN_SIZE: nat := 128
  const UINT64_MAX: nat := 0xFFFF_FFFF_FFFF_FFFF

  /** No message before the given time. */
  ghost predicate AllFrom(messages: seq<Message>, begin: nat) {
    forall i {:trigger messages[i]} | 0 <= i < |messages| :: messages[i].time >= begin
  }

  ghost predicate AllBefore(messages: seq<Message>, bound: nat) {
    forall i {:trigger messages[i]} | 0 <= i < |messages| :: messages[i].time < bound
  }

  // ----- the buffer, a multimap from times to messages -----

  /** Insertion behind all messages with the same or an earlier time. */
  function Insert(buffer: seq<Message>, message: Message): seq<Message> {
    if buffer == [] || message.time < buffer[0].time then [message] + buffer
    else [buffer[0]] + Insert(buffer[1..], message)
  }

  /** The messages with one time, in their order. */
  function AtTime(messages: seq<Message>, time: nat): seq<Message> {
    if messages == [] then []
    else if messages[0].time == time then [messages[0]] + AtTime(messages[1..], time)
    else AtTime(messages[1..], time)
  }

  lemma {:induction false} AtTimeConcat(a: seq<Message>, b: seq<Message>, time: nat)
    ensures AtTime(a + b, time) == AtTime(a, time) + AtTime(b, time)
  {
    if a == [] {
      assert a + b == b;
    } else {
      assert (a + b)[1..] == a[1..] + b;
      AtTimeConcat(a[1..], b, time);
    }
  }

  lemma {:induction false} NoneAtTime(messages: seq<Message>, time: nat)
    requires forall i {:trigger messages[i]} | 0 <= i < |messages| :: messages[i].time != time
    ensures AtTime(messages, time) == []
  {
    if messages != [] {
      assert forall i | 0 <= i < |messages[1..]| :: messages[1..][i] == messages[i + 1];
      NoneAtTime(messages[1..], time);
    }
  }

  /** Messages with equal times stay in the order in which they were inserted. */
  lemma {:induction false} InsertAtTime(buffer: seq<Message>, message: Message, time: nat)
    requires Sorted(buffer)
    ensures AtTime(Insert(buffer, message), time) ==
            AtTime(buffer, time) + if message.time == time then [message] else []
  {
    if buffer == [] || message.time < buffer[0].time {
      if message.time == time {
        NoneAtTime(buffer, time);
      }
    } else {
      InsertAtTime(buffer[1..], message, time);
    }
  }

  lemma {:induction false} HowOften(messages: seq<Message>, m: Message)
    ensures multiset(messages)[m] == multiset(AtTime(messages, m.time))[m]
  {
    if messages != [] {
      HowOften(messages[1..], m);
      assert messages == [messages[0]] + messages[1..];
      if messages[0].time == m.time {
        assert AtTime(messages, m.time) == [messages[0]] + AtTime(messages[1..], m.time);
      }
    }
  }

  lemma {:induction false} FirstTime(messages: seq<Message>, time: nat)
    requires Sorted(messages) && AtTime(messages, time) != []
    ensures messages != [] && messages[0].time <= time
  {
    if messages[0].time != time {
      FirstTime(messages[1..], time);
    }
  }

  /** Ascending messages are known from the messages of each time. */
  lemma {:induction false} KnownByTimes(a: seq<Message>, b: seq<Message>)
    requires Sorted(a) && Sorted(b) && forall time: nat :: AtTime(a, time) == AtTime(b, time)
    ensures a == b
  {
    if a != [] {
      FirstTime(b, a[0].time);
    }
    if b != [] {
      FirstTime(a, b[0].time);
      assert a[0] == AtTime(a, a[0].time)[0] && b[0] == AtTime(b, a[0].time)[0];
      forall time: nat
        ensures AtTime(a[1..], time) == AtTime(b[1..], time)
      {
        assert AtTime(a, time) == AtTime(b, time);
        if a[0].time == time {
          assert AtTime(a[1..], time) == AtTime(a, time)[1..] && AtTime(b[1..], time) == AtTime(b, time)[1..];
        }
      }
      KnownByTimes(a[1..], b[1..]);
    }
  }

  lemma {:induction false} InsertBounds(buffer: seq<Message>, message: Message, begin: nat, bound: nat)
    ensures AllBefore(buffer, bound) && message.time < bound ==> AllBefore(Insert(buffer, message), bound)
    ensures AllFrom(buffer, begin) && message.time >= begin ==> AllFrom(Insert(buffer, message), begin)
  {
    if buffer != [] && message.time >= buffer[0].time {
      InsertBounds(buffer[1..], message, begin, bound);
    }
  }

  lemma {:induction false} InsertSorts(buffer: seq<Message>, message: Message)
    requires Sorted(buffer)
    ensures Sorted(Insert(buffer, message))
  {
    if buffer != [] && message.time >= buffer[0].time {
      InsertSorts(buffer[1..], message);
      InsertBounds(buffer[1..], message, buffer[0].time, 0);
    }
  }

  // ----- what several lists hold -----

  function UpTo(messages: seq<Message>, end: nat): seq<Message> {
    if messages == [] then []
    else if messages[0].time <= end then [messages[0]] + UpTo(messages[1..], end)
    else UpTo(messages[1..], end)
  }

  /** All messages of the lists up to the end time, list after list. */
  function Concat(lists: seq<seq<Message>>, end: nat): seq<Message> {
    if lists == [] then [] else UpTo(lists[0], end) + Concat(lists[1..], end)
  }

  /** The buffer after the messages were inserted one after the other. */
  function InsertAll(buffer: seq<Message>, messages: seq<Message>): seq<Message>
    decreases messages
  {
    if messages == [] then buffer else InsertAll(Insert(buffer, messages[0]), messages[1..])
  }

  lemma {:induction false} InsertAllConcat(buffer: seq<Message>, a: seq<Message>, b: seq<Message>)
    ensures InsertAll(buffer, a + b) == InsertAll(InsertAll(buffer, a), b)
    decreases a
  {
    if a == [] {
      assert a + b == b;
    } else {
      assert (a + b)[1..] == a[1..] + b;
      InsertAllConcat(Insert(buffer, a[0]), a[1..], b);
    }
  }

  lemma {:induction false} InsertAllSorts(buffer: seq<Message>, messages: seq<Message>)
    requires Sorted(buffer)
    ensures Sorted(InsertAll(buffer, messages))
    decreases messages
  {
    if messages != [] {
      InsertSorts(buffer, messages[0]);
      InsertAllSorts(Insert(buffer, messages[0]), messages[1..]);
    }
  }

  lemma {:induction false} InsertAllAtTime(buffer: seq<Message>, messages: seq<Message>, time: nat)
    requires Sorted(buffer)
    ensures AtTime(InsertAll(buffer, messages), time) == AtTime(buffer, time) + AtTime(messages, time)
    decreases messages
  {
    if messages != [] {
      InsertSorts(buffer, messages[0]);
      var first := if messages[0].time == time then [messages[0]] else [];
      assert AtTime(messages, time) == first + AtTime(messages[1..], time);
      InsertAtTime(buffer, messages[0], time);
      InsertAllAtTime(Insert(buffer, messages[0]), messages[1..], time);
    }
  }

  /** Messages with different times can be inserted in any order. */
  lemma {:induction false} InsertSwap(buffer: seq<Message>, later: Message, message: Message)
    requires message.time < later.time
    ensures Insert(Insert(buffer, later), message) == Insert(Insert(buffer, message), later)
  {
    if buffer != [] {
      if message.time >= buffer[0].time {
        InsertSwap(buffer[1..], later, message);
      } else {
        assert ([message] + buffer)[1..] == buffer;
      }
    }
  }

  lemma {:induction false} InsertAllSwap(buffer: seq<Message>, later: seq<Message>, message: Message)
    requires AllFrom(later, message.time + 1)
    ensures Insert(InsertAll(buffer, later), message) == InsertAll(Insert(buffer, message), later)
    decreases later
  {
    if later != [] {
      assert later[0].time > message.time;
      InsertSwap(buffer, later[0], message);
      InsertAllSwap(Insert(buffer, later[0]), later[1..], message);
    }
  }

  /** The first message of a list may be inserted first, if the lists before have only later ones. */
  lemma {:induction false} FirstGoesIn(buffer: seq<Message>, lists: seq<seq<Message>>, i: nat, end: nat)
    requires i < |lists| && lists[i] != [] && lists[i][0].time <= end
    requires forall j | 0 <= j < i :: AllFrom(lists[j], lists[i][0].time + 1)
    ensures InsertAll(buffer, Concat(lists, end)) ==
            InsertAll(Insert(buffer, lists[i][0]), Concat(lists[i := lists[i][1..]], end))
    decreases lists
  {
    var m, lists' := lists[i][0], lists[i := lists[i][1..]];
    var first := UpTo(lists[0], end);
    InsertAllConcat(buffer, first, Concat(lists[1..], end));
    if i > 0 {
      assert lists'[1..] == lists[1..][i - 1 := lists[i][1..]];
      FirstGoesIn(InsertAll(buffer, first), lists[1..], i - 1, end);
      UpToFrom(lists[0], end, m.time + 1);
      InsertAllSwap(buffer, first, m);
      InsertAllConcat(Insert(buffer, m), first, Concat(lists'[1..], end));
    } else {
      assert lists'[1..] == lists[1..];
      var rest := UpTo(lists[0][1..], end);
      assert first[1..] == rest;
      InsertAllConcat(Insert(buffer, m), rest, Concat(lists[1..], end));
    }
  }

  /** The first message of the buffer stays the first, if only later ones come. */
  lemma {:induction false} FirstStays(buffer: seq<Message>, messages: seq<Message>)
    requires buffer != [] && AllFrom(messages, buffer[0].time)
    ensures InsertAll(buffer, messages) == [buffer[0]] + InsertAll(buffer[1..], messages)
    decreases messages
  {
    if messages != [] {
      assert messages[0].time >= buffer[0].time;
      assert ([buffer[0]] + Insert(buffer[1..], messages[0]))[1..] == Insert(buffer[1..], messages[0]);
      FirstStays(Insert(buffer, messages[0]), messages[1..]);
    } else {
      assert buffer == [buffer[0]] + buffer[1..];
    }
  }

  lemma {:induction false} UpToNothing(messages: seq<Message>, end: nat)
    requires AllFrom(messages, end + 1)
    ensures UpTo(messages, end) == []
  {
    if messages != [] {
      assert messages[0] in messages;
      UpToNothing(messages[1..], end);
    }
  }

  lemma {:induction false} ConcatNothing(lists: seq<seq<Message>>, end: nat)
    requires forall i | 0 <= i < |lists| :: AllFrom(lists[i], end + 1)
    ensures Concat(lists, end) == []
  {
    if lists != [] {
      UpToNothing(lists[0], end);
      ConcatNothing(lists[1..], end);
    }
  }

  lemma {:induction false} ConcatFrom(lists: seq<seq<Message>>, end: nat, begin: nat)
    requires forall i | 0 <= i < |lists| :: AllFrom(lists[i], begin)
    ensures AllFrom(Concat(lists, end), begin)
  {
    if lists != [] {
      UpToFrom(lists[0], end, begin);
      ConcatFrom(lists[1..], end, begin);
    }
  }

  /** A later begin time can be applied later. */
  lemma {:induction false} FromFrom(messages: seq<Message>, begin: nat, later: nat)
    requires begin <= later
    ensures From(From(messages, begin), later) == From(messages, later)
  {
    if messages != [] {
      FromFrom(messages[1..], begin, later);
    }
  }

  lemma {:induction false} FromSame(messages: seq<Message>, begin: nat)
    requires AllFrom(messages, begin)
    ensures From(messages, begin) == messages
  {
    if messages != [] {
      assert messages[0] in messages;
      FromSame(messages[1..], begin);
    }
  }

  lemma {:induction false} FromSorted(messages: seq<Message>, begin: nat)
    requires Sorted(messages)
    ensures Sorted(From(messages, begin)) && AllFrom(From(messages, begin), begin)
  {
    FromIsLate(messages, begin);
    if messages != [] {
      FromSorted(messages[1..], begin);
      FromKeepsBound(messages[1..], begin, messages[0].time);
    }
  }

  lemma {:induction false} FromKeepsBound(messages: seq<Message>, begin: nat, bound: nat)
    requires AllFrom(messages, bound)
    ensures AllFrom(From(messages, begin), bound)
  {
    if messages != [] {
      FromKeepsBound(messages[1..], begin, bound);
    }
  }

  lemma {:induction false} UpToAtTime(messages: seq<Message>, begin: nat, end: nat, time: nat)
    ensures AtTime(UpTo(From(messages, begin), end), time) ==
            if begin <= time <= end then AtTime(messages, time) else []
  {
    if messages != [] {
      UpToAtTime(messages[1..], begin, end, time);
      if messages[0].time >= begin {
        assert From(messages, begin)[1..] == From(messages[1..], begin);
      }
    }
  }

  lemma {:induction false} UpToFrom(messages: seq<Message>, end: nat, begin: nat)
    requires AllFrom(messages, begin)
    ensures AllFrom(UpTo(messages, end), begin)
  {
    if messages != [] {
      UpToFrom(messages[1..], end, begin);
    }
  }

  // ----- what the files hold -----

  /** The messages of all files, file after file. */
  ghost function AllMessages(readers: seq<RecordReader>): seq<Message> {
    if readers == [] then [] else readers[0].All() + AllMessages(readers[1..])
  }

  ghost function AllFiles(readers: seq<RecordReader>, begin: nat): (lists: seq<seq<Message>>)
    ensures |lists| == |readers|
    ensures forall i | 0 <= i < |readers| :: lists[i] == From(readers[i].All(), begin)
  {
    if readers == [] then [] else [From(readers[0].All(), begin)] + AllFiles(readers[1..], begin)
  }

  lemma {:induction false} AllFilesAtTime(readers: seq<RecordReader>, begin: nat, end: nat, time: nat)
    ensures AtTime(Concat(AllFiles(readers, begin), end), time) ==
            if begin <= time <= end then AtTime(AllMessages(readers), time) else []
  {
    if readers != [] {
      var first, rest := readers[0].All(), AllFiles(readers[1..], begin);
      UpToAtTime(first, begin, end, time);
      AllFilesAtTime(readers[1..], begin, end, time);
      AtTimeConcat(first, AllMessages(readers[1..]), time);
      AtTimeConcat(UpTo(From(first, begin), end), Concat(rest, end), time);
      assert AllFiles(readers, begin)[1..] == rest;
    }
  }

  /** The messages of all files in the range, merged by their times. */
  ghost function Merged(readers: seq<RecordReader>, begin: nat, end: nat): seq<Message> {
    InsertAll([], Concat(AllFiles(readers, begin), end))
  }

  /** The merge is by ascending times; messages with the same time come file after file, and each
      file's in their order. */
  lemma MergedIs(readers: seq<RecordReader>, begin: nat, end: nat, time: nat)
    ensures Sorted(Merged(readers, begin, end))
    ensures AtTime(Merged(readers, begin, end), time) ==
            if begin <= time <= end then AtTime(AllMessages(readers), time) else []
  {
    InsertAllSorts([], Concat(AllFiles(readers, begin), end));
    InsertAllAtTime([], Concat(AllFiles(readers, begin), end), time);
    AllFilesAtTime(readers, begin, end, time);
  }

  // ----- the choice of channels -----

  /** The message is on one of the channels; no choice means all channels. */
  predicate IsOn(message: Message, channels: set<string>) {
    channels == {} || message.channel in channels
  }

  function Chosen(messages: seq<Message>, channels: set<string>): seq<Message> {
    if messages == [] then []
    else if IsOn(messages[0], channels) then [messages[0]] + Chosen(messages[1..], channels)
    else Chosen(messages[1..], channels)
  }

  lemma {:induction false} ChosenAtTime(messages: seq<Message>, channels: set<string>, time: nat)
    ensures AtTime(Chosen(messages, channels), time) == Chosen(AtTime(messages, time), channels)
  {
    if messages != [] {
      ChosenAtTime(messages[1..], channels, time);
    }
  }

  lemma {:induction false} ChosenSorted(messages: seq<Message>, channels: set<string>)
    requires Sorted(messages)
    ensures Sorted(Chosen(messages, channels))
    ensures forall bound: nat | AllFrom(messages, bound) :: AllFrom(Chosen(messages, channels), bound)
  {
    if messages != [] {
      ChosenSorted(messages[1..], channels);
      assert AllFrom(messages[1..], messages[0].time);
    }
  }

  lemma {:induction false} ChosenHowOften(messages: seq<Message>, channels: set<string>, m: Message)
    ensures multiset(Chosen(messages, channels))[m] == if IsOn(m, channels) then multiset(messages)[m] else 0
  {
    if messages != [] {
      ChosenHowOften(messages[1..], channels, m);
      assert messages == [messages[0]] + messages[1..];
    }
  }

  // ----- the range of the headers -----

  /** The smallest begin and the largest end in the headers of the valid files. */
  function MinBegin(readers: seq<RecordReader>): nat {
    if readers == [] then UINT64_MAX
    else
      var last := readers[|readers| - 1];
      var rest := MinBegin(readers[..|readers| - 1]);
      if last.isValid && rest > last.headerBegin then last.headerBegin else rest
  }

  function MaxEnd(readers: seq<RecordReader>): nat {
    if readers == [] then 0
    else
      var last := readers[|readers| - 1];
      var rest := MaxEnd(readers[..|readers| - 1]);
      if last.isValid && rest < last.headerEnd then last.headerEnd else rest
  }

  function Cut(begin: nat, min: nat): nat {
    if begin < min then min else begin
  }

  function CutEnd(end: nat, max: nat): nat {
    if end > max then max else end
  }

  lemma {:induction false} HeadersCover(readers: seq<RecordReader>, i: nat)
    requires i < |readers| && readers[i].isValid
    ensures MinBegin(readers) <= readers[i].headerBegin && readers[i].headerEnd <= MaxEnd(readers)
  {
    if i < |readers| - 1 {
      HeadersCover(readers[..|readers| - 1], i);
    }
  }

  /** Both ends are those of valid files, when there is one. */
  lemma {:induction false} EndsAreHeld(readers: seq<RecordReader>)
    ensures MinBegin(readers) == UINT64_MAX
            || (exists i :: 0 <= i < |readers| && readers[i].isValid && readers[i].headerBegin == MinBegin(readers))
    ensures MaxEnd(readers) == 0
            || (exists i :: 0 <= i < |readers| && readers[i].isValid && readers[i].headerEnd == MaxEnd(readers))
  {
    if readers != [] {
      var n := |readers| - 1;
      var rest := readers[..n];
      EndsAreHeld(rest);
      if i :| 0 <= i < |rest| && rest[i].isValid && rest[i].headerBegin == MinBegin(rest) {
        assert readers[i] == rest[i];
      }
      if i :| 0 <= i < |rest| && rest[i].isValid && rest[i].headerEnd == MaxEnd(rest) {
        assert readers[i] == rest[i];
      }
      assert readers[n].isValid || (MinBegin(readers) == MinBegin(rest) && MaxEnd(readers) == MaxEnd(rest));
    }
  }

  lemma {:induction false} MessageIsSomewhere(readers: seq<RecordReader>, m: Message) returns (i: nat)
    requires m in AllMessages(readers)
    ensures i < |readers| && m in readers[i].All()
  {
    if m in readers[0].All() {
      i := 0;
    } else {
      i := MessageIsSomewhere(readers[1..], m);
      i := i + 1;
    }
  }

  /** No message of an accurate file lies outside the range of the headers. */
  lemma ClippingLosesNothing(readers: seq<RecordReader>, m: Message)
    requires forall i | 0 <= i < |readers| :: readers[i].AccurateFile()
    requires m in AllMessages(readers)
    ensures MinBegin(readers) <= m.time <= MaxEnd(readers)
  {
    var i := MessageIsSomewhere(readers, m);
    HeadersCover(readers, i);
    var k :| 0 <= k < |Messages(readers[i].sections)| && Messages(readers[i].sections)[k] == m;
  }

  class RecordViewer {
    const readers: seq<RecordReader>
    const channels: set<string>
    var beginTime: nat
    var endTime: nat
    var currBegin: nat
    var finished: seq<bool>
    var buffer: seq<Message>
    /** What each reader can still give from currBegin on. */
    ghost var left: seq<seq<Message>>

    ghost predicate Distinct() {
      forall i, j {:trigger readers[i], readers[j]} | 0 <= i < j < |readers| :: readers[i] != readers[j]
    }

    ghost predicate ReaderInv(i: int)
      requires 0 <= i < |readers| == |finished| == |left|
      reads this, readers
    {
      && readers[i].Valid() && Sorted(left[i]) && AllFrom(left[i], currBegin)
      && (if finished[i] then left[i] == [] else left[i] == readers[i].Left(currBegin))
    }

    ghost predicate ReadersInv()
      reads this, readers
    {
      && Distinct() && |readers| == |finished| == |left|
      && (forall i {:trigger ReaderInv(i)} | 0 <= i < |readers| :: ReaderInv(i))
    }

    ghost predicate Valid()
      reads this, readers
    {
      ReadersInv() && Sorted(buffer) && AllBefore(buffer, currBegin)
    }

    /** What is still to be shown, in the order of showing, before the choice of channels. */
    ghost function Line(): seq<Message>
      reads this
    {
      InsertAll(buffer, Concat(left, endTime))
    }

    /** Reader i gives its next message of the window, if there is one. */
    method ReadOne(i: nat, windowEnd: nat) returns (result: Option<Message>)
      requires ReadersInv() && i < |readers| && !finished[i]
      modifies `left, readers[i]
      ensures ReadersInv() && |left| == |old(left)|
      ensures Answers(old(left[i]), windowEnd, result, left[i])
      ensures left == old(left)[i := left[i]]
    {
      assert ReaderInv(i);
      result := readers[i].ReadMessage(currBegin, windowEnd);
      if result.Some? {
        left := left[i := left[i][1..]];
      }
      forall j | 0 <= j < |readers|
        ensures ReaderInv(j)
      {
        assert old(ReaderInv(j));
        assert j != i ==> readers[j] != readers[i];
      }
    }

    method Put(message: Message, ghost bound: nat)
      requires ReadersInv() && Sorted(buffer) && AllBefore(buffer, bound) && message.time < bound
      modifies `buffer
      ensures ReadersInv() && Sorted(buffer) && AllBefore(buffer, bound)
      ensures buffer == Insert(old(buffer), message)
    {
      InsertSorts(buffer, message);
      InsertBounds(buffer, message, 0, bound);
      buffer := Insert(buffer, message);
      forall j | 0 <= j < |readers|
        ensures ReaderInv(j)
      {
        assert old(ReaderInv(j));
      }
    }

    /** One round of FillBuffer's inner loop: a message of reader i goes into the buffer. */
    method TakeOne(i: nat, windowEnd: nat) returns (took: bool)
      requires ReadersInv() && Sorted(buffer) && AllBefore(buffer, windowEnd + 1)
      requires i < |readers| && !finished[i] && windowEnd <= endTime
      requires forall j | 0 <= j < i :: AllFrom(left[j], windowEnd + 1)
      modifies `buffer, `left, readers[i]
      ensures ReadersInv() && Sorted(buffer) && AllBefore(buffer, windowEnd + 1)
      ensures Line() == old(Line())
      ensures if took then old(left[i]) != [] && left == old(left)[i := old(left[i])[1..]]
              else left == old(left) && AllFrom(left[i], windowEnd + 1)
    {
      var result := ReadOne(i, windowEnd);
      took := result.Some?;
      if took {
        FirstGoesIn(old(buffer), old(left), i, endTime);
        assert left == old(left)[i := old(left)[i][1..]];
        Put(result.value, windowEnd + 1);
      } else {
        assert left == old(left) && ReaderInv(i);
      }
    }

    /** The inner loop of FillBuffer: all messages of one reader in the window. */
    method ReadWindow(i: nat, windowEnd: nat)
      requires ReadersInv() && Sorted(buffer) && AllBefore(buffer, windowEnd + 1)
      requires i < |readers| && !finished[i] && windowEnd <= endTime
      requires forall j | 0 <= j < i :: AllFrom(left[j], windowEnd + 1)
      modifies `buffer, `left, readers[i]
      ensures ReadersInv() && Sorted(buffer) && AllBefore(buffer, windowEnd + 1)
      ensures Line() == old(Line()) && |left| == |old(left)| && AllFrom(left[i], windowEnd + 1)
      ensures forall j | 0 <= j < |left| && j != i :: left[j] == old(left[j])
    {
      var took := true;
      while took
        invariant ReadersInv() && Sorted(buffer) && AllBefore(buffer, windowEnd + 1)
        invariant Line() == old(Line()) && |left| == |old(left)|
        invariant forall j | 0 <= j < |left| && j != i :: left[j] == old(left[j])
        invariant !took ==> AllFrom(left[i], windowEnd + 1)
        decreases took, |left[i]|
      {
        took := TakeOne(i, windowEnd);
      }
    }

    lemma FinishedHasNothing(i: nat)
      requires ReadersInv() && i < |readers| && !finished[i] && readers[i].headerEnd < currBegin
      ensures left[i] == []
    {
      assert ReaderInv(i);
      if readers[i].isValid {
        FromTooEarly(readers[i].Pending(), readers[i].headerBegin, readers[i].headerEnd, currBegin);
      }
    }

    method FinishReader(i: nat)
      requires ReadersInv() && i < |readers| && !finished[i] && readers[i].headerEnd < currBegin
      modifies `finished, readers[i]
      ensures ReadersInv()
    {
      FinishedHasNothing(i);
      assert ReaderInv(i);
      finished := finished[i := true];
      readers[i].Reset();
      forall j | 0 <= j < |readers|
        ensures ReaderInv(j)
      {
        assert old(ReaderInv(j));
        assert j != i ==> readers[j] != readers[i];
      }
    }

    /** The files that end before the window are not read any more. */
    method FinishReaders()
      requires ReadersInv()
      modifies `finished, readers
      ensures ReadersInv()
    {
      for i := 0 to |readers|
        invariant ReadersInv()
      {
        if !finished[i] && readers[i].headerEnd < currBegin {
          FinishReader(i);
        }
      }
    }

    /** The next window begins: every reader has given all that lies before it. */
    method MoveTo(begin: nat)
      requires ReadersInv() && begin >= currBegin
      requires forall i | 0 <= i < |left| :: AllFrom(left[i], begin)
      modifies `currBegin
      ensures ReadersInv() && currBegin == begin
    {
      forall i | 0 <= i < |readers|
        ensures !finished[i] ==> readers[i].Valid() && left[i] == readers[i].Left(begin)
      {
        assert ReaderInv(i);
        if !finished[i] && readers[i].isValid {
          FromFrom(readers[i].Pending(), currBegin, begin);
          FromSame(left[i], begin);
        }
      }
      currBegin := begin;
      forall i | 0 <= i < |readers|
        ensures ReaderInv(i)
      {
        assert old(ReaderInv(i));
      }
    }

    method FillBuffer() returns (filled: bool)
      requires Valid()
      modifies `buffer, `left, `finished, `currBegin, readers
      ensures Valid() && Line() == old(Line())
      ensures filled == (buffer != [])
      ensures !filled ==> Line() == []
    {
      while currBegin <= endTime && |buffer| < BUFFER_MIN_SIZE
        invariant Valid() && Line() == old(Line())
        decreases endTime + 1 - currBegin
      {
        var windowEnd := currBegin + STEP_TIME;
        if windowEnd > endTime {
          windowEnd := endTime;
        }
        ReadAll(windowEnd);
        MoveTo(windowEnd + 1);
      }
      if buffer == [] {
        NothingLeft();
      }
      return buffer != [];
    }

    /** All files are read in the window. */
    method ReadAll(windowEnd: nat)
      requires Valid() && currBegin <= windowEnd <= endTime
      modifies `buffer, `left, `finished, readers
      ensures ReadersInv() && Sorted(buffer) && AllBefore(buffer, windowEnd + 1)
      ensures Line() == old(Line()) && forall i | 0 <= i < |left| :: AllFrom(left[i], windowEnd + 1)
    {
      FinishReaders();
      for i := 0 to |readers|
        invariant ReadersInv() && Sorted(buffer) && AllBefore(buffer, windowEnd + 1)
        invariant Line() == old(Line())
        invariant forall j | 0 <= j < i :: AllFrom(left[j], windowEnd + 1)
      {
        if !finished[i] {
          ReadWindow(i, windowEnd);
        } else {
          assert ReaderInv(i);
        }
      }
    }

    lemma NothingLeft()
      requires Valid() && buffer == [] && currBegin > endTime
      ensures Line() == []
    {
      forall i | 0 <= i < |left|
        ensures AllFrom(left[i], endTime + 1)
      {
        assert ReaderInv(i);
      }
      ConcatNothing(left, endTime);
    }

    lemma LineIsSorted()
      requires Valid()
      ensures Sorted(Line())
    {
      InsertAllSorts(buffer, Concat(left, endTime));
    }

    lemma FrontIsFirst()
      requires Valid() && buffer != []
      ensures Line() == [buffer[0]] + InsertAll(buffer[1..], Concat(left, endTime))
    {
      forall i | 0 <= i < |left|
        ensures AllFrom(left[i], currBegin)
      {
        assert ReaderInv(i);
      }
      ConcatFrom(left, endTime, currBegin);
      FirstStays(buffer, Concat(left, endTime));
    }

    /** The first message leaves the buffer. */
    method PopFront() returns (message: Message)
      requires Valid() && buffer != []
      modifies `buffer
      ensures Valid() && old(Line()) == [message] + Line()
    {
      FrontIsFirst();
      message := buffer[0];
      buffer := buffer[1..];
      forall i | 0 <= i < |readers|
        ensures ReaderInv(i)
      {
        assert old(ReaderInv(i));
      }
    }

    /** One round of Update: the first message of the buffer, which is filled when it is empty. */
    method Take() returns (result: Option<Message>)
      requires Valid()
      modifies `buffer, `left, `finished, `currBegin, readers
      ensures Valid()
      ensures old(Line()) == match result case None => [] case Some(message) => [message] + Line()
      ensures result.None? ==> Line() == []
    {
      if buffer == [] {
        var filled := FillBuffer();
        if !filled {
          return None;
        }
      }
      var message := PopFront();
      return Some(message);
    }

    /** The next message on a chosen channel: the first of those still to be shown. */
    method Update() returns (result: Option<Message>)
      requires Valid()
      modifies `buffer, `left, `finished, `currBegin, readers
      ensures Valid()
      ensures Chosen(old(Line()), channels) ==
              match result case None => [] case Some(message) => [message] + Chosen(Line(), channels)
      ensures result.None? ==> Line() == []
      ensures result.Some? ==> |Line()| < |old(Line())|
    {
      while true
        invariant Valid() && Chosen(Line(), channels) == Chosen(old(Line()), channels)
        invariant |Line()| <= |old(Line())|
        decreases |Line()|
      {
        ghost var line := Line();
        result := Take();
        if result.None? {
          return;
        }
        assert line[1..] == Line();
        if IsOn(result.value, channels) {
          return;
        }
      }
    }

    /** The range is cut to what the headers of the valid files cover. */
    method UpdateTime()
      modifies `beginTime, `endTime, `currBegin
      ensures beginTime == Cut(old(beginTime), MinBegin(readers))
      ensures endTime == CutEnd(old(endTime), MaxEnd(readers))
      ensures currBegin == beginTime
    {
      var minBegin, maxEnd := UINT64_MAX, 0;
      for i := 0 to |readers|
        invariant minBegin == MinBegin(readers[..i]) && maxEnd == MaxEnd(readers[..i])
      {
        assert readers[..i + 1][..i] == readers[..i];
        if readers[i].isValid {
          if minBegin > readers[i].headerBegin {
            minBegin := readers[i].headerBegin;
          }
          if maxEnd < readers[i].headerEnd {
            maxEnd := readers[i].headerEnd;
          }
        }
      }
      assert readers[..|readers|] == readers;
      if beginTime < minBegin {
        beginTime := minBegin;
      }
      if endTime > maxEnd {
        endTime := maxEnd;
      }
      currBegin := beginTime;
    }

    constructor (readers: seq<RecordReader>, beginTime: nat, endTime: nat, channels: set<string>)
      ensures this.readers == readers && this.channels == channels
      ensures this.beginTime == Cut(beginTime, MinBegin(readers))
      ensures this.endTime == CutEnd(endTime, MaxEnd(readers))
      ensures |finished| == |readers|
    {
      this.readers := readers;
      this.channels := channels;
      this.beginTime := beginTime;
      this.endTime := endTime;
      finished := seq(|readers|, i => false);
      buffer := [];
      new;
      UpdateTime();
    }

    /** The files are distinct, their headers are accurate and their times ascend. */
    ghost predicate SoundFiles() {
      && Distinct()
      && (forall i {:trigger readers[i]} | 0 <= i < |readers| :: readers[i].AccurateFile() && Sorted(readers[i].All()))
    }

    ghost predicate Restarted(i: int)
      requires 0 <= i < |readers|
      reads `currBegin, readers[i]
    {
      readers[i].Valid() && readers[i].Left(currBegin) == From(readers[i].All(), currBegin)
    }

    method ResetReaders()
      requires SoundFiles()
      modifies readers
      ensures forall i {:trigger Restarted(i)} | 0 <= i < |readers| :: Restarted(i)
    {
      for i := 0 to |readers|
        invariant forall j {:trigger Restarted(j)} | 0 <= j < i :: Restarted(j)
      {
        ResetReader(i);
      }
    }

    method ResetReader(i: nat)
      requires SoundFiles() && i < |readers|
      modifies readers[i]
      ensures Restarted(i)
      ensures forall j {:trigger Restarted(j)} | 0 <= j < |readers| && j != i :: old(Restarted(j)) ==> Restarted(j)
    {
      readers[i].Reset();
      forall j | 0 <= j < |readers| && j != i
        ensures old(Restarted(j)) ==> Restarted(j)
      {
        assert readers[j] != readers[i];
      }
    }

    /** Everything starts again from the begin time. */
    method Reset()
      requires SoundFiles() && |finished| == |readers|
      modifies this, readers
      ensures Valid() && beginTime == old(beginTime) && endTime == old(endTime)
      ensures Line() == Merged(readers, beginTime, endTime)
    {
      currBegin := beginTime;
      ResetReaders();
      finished := seq(|readers|, i => false);
      buffer := [];
      left := AllFiles(readers, beginTime);
      forall i | 0 <= i < |readers|
        ensures ReaderInv(i)
      {
        assert Restarted(i);
        FromSorted(readers[i].All(), beginTime);
      }
    }

    /** What was shown, with what is shown now. */
    ghost function WithNow(out: seq<Message>, now: Option<Message>): seq<Message> {
      if now.Some? then out + [now.value] else out
    }

    /** operator++: the iterator at the next message, or at the end. */
    method Increment(ghost all: seq<Message>, ghost out: seq<Message>) returns (now: Option<Message>)
      requires Valid() && all == out + Chosen(Line(), channels)
      modifies `buffer, `left, `finished, `currBegin, readers
      ensures Valid() && all == WithNow(out, now) + Chosen(Line(), channels)
      ensures now.None? ==> Line() == []
      ensures now.Some? ==> |Line()| < |old(Line())|
    {
      now := Update();
    }

    /** A loop over the viewer, from begin() to end(). */
    method Iterate() returns (out: seq<Message>)
      requires SoundFiles() && |finished| == |readers|
      modifies this, readers
      ensures beginTime == old(beginTime) && endTime == old(endTime)
      ensures out == Chosen(Merged(readers, beginTime, endTime), channels)
    {
      Reset();
      if beginTime > endTime {
        NothingMerged(readers, beginTime, endTime);
        return [];
      }
      out := ShowAll();
    }

    method ShowAll() returns (out: seq<Message>)
      requires Valid()
      modifies `buffer, `left, `finished, `currBegin, readers
      ensures out == Chosen(old(Line()), channels)
    {
      ghost var all := Chosen(Line(), channels);
      out := [];
      var now := Increment(all, out);
      while now.Some?
        invariant Valid() && all == WithNow(out, now) + Chosen(Line(), channels)
        invariant now.None? ==> Line() == []
        decreases |Line()|, now.Some?
      {
        out := out + [now.value];
        now := Increment(all, out);
      }
    }
  }

  lemma NothingMerged(readers: seq<RecordReader>, begin: nat, end: nat)
    requires begin > end
    ensures Merged(readers, begin, end) == []
  {
    var lists := AllFiles(readers, begin);
    forall i | 0 <= i < |lists|
      ensures AllFrom(lists[i], end + 1)
    {
      FromIsLate(readers[i].All(), begin);
    }
    ConcatNothing(lists, end);
  }

  /** Iterating a viewer yields, with ascending times, exactly the messages of all valid files on
      the requested channels with times in the requested range; messages with the same time come
      file after file and each file's in their order, so that what is shown is fully determined. */
  method View(readers: seq<RecordReader>, begin: nat, end: nat, channels: set<string>) returns (out: seq<Message>)
    requires forall i, j {:trigger readers[i], readers[j]} | 0 <= i < j < |readers| :: readers[i] != readers[j]
    requires forall i {:trigger readers[i]} | 0 <= i < |readers| :: readers[i].AccurateFile() && Sorted(readers[i].All())
    modifies readers
    ensures Sorted(out)
    ensures forall time: nat {:trigger AtTime(out, time)} ::
              AtTime(out, time) ==
              if begin <= time <= end then Chosen(AtTime(AllMessages(readers), time), channels) else []
    ensures forall m {:trigger multiset(out)[m]} ::
              multiset(out)[m] ==
              if IsOn(m, channels) && begin <= m.time <= end then multiset(AllMessages(readers))[m] else 0
  {
    var viewer := new RecordViewer(readers, begin, end, channels);
    out := viewer.Iterate();
    ChosenMerged(readers, begin, end, channels);
    forall m
      ensures multiset(out)[m] ==
              if IsOn(m, channels) && begin <= m.time <= end then multiset(AllMessages(readers))[m] else 0
    {
      HowOften(out, m);
      HowOften(AllMessages(readers), m);
      ChosenHowOften(AtTime(AllMessages(readers), m.time), channels, m);
    }
  }

  /** The range may be cut to what the headers cover. */
  lemma ChosenMerged(readers: seq<RecordReader>, begin: nat, end: nat, channels: set<string>)
    requires forall i {:trigger readers[i]} | 0 <= i < |readers| :: readers[i].AccurateFile()
    ensures var out := Chosen(Merged(readers, Cut(begin, MinBegin(readers)), CutEnd(end, MaxEnd(readers))), channels);
      && Sorted(out)
      && forall time: nat {:trigger AtTime(out, time)} ::
           AtTime(out, time) ==
           if begin <= time <= end then Chosen(AtTime(AllMessages(readers), time), channels) else []
  {
    var b, e := Cut(begin, MinBegin(readers)), CutEnd(end, MaxEnd(readers));
    var merged := Merged(readers, b, e);
    MergedIs(readers, b, e, 0);
    ChosenSorted(merged, channels);
    forall time: nat
      ensures AtTime(Chosen(merged, channels), time) ==
              if begin <= time <= end then Chosen(AtTime(AllMessages(readers), time), channels) else []
    {
      MergedIs(readers, b, e, time);
      ChosenAtTime(merged, channels, time);
      if begin <= time <= end && !(b <= time <= e) {
        NothingOutside(readers, time);
      }
    }
  }

  lemma NothingOutside(readers: seq<RecordReader>, time: nat)
    requires forall i {:trigger readers[i]} | 0 <= i < |readers| :: readers[i].AccurateFile()
    requires !(MinBegin(readers) <= time <= MaxEnd(readers))
    ensures AtTime(AllMessages(readers), time) == []
  {
    var all := AllMessages(readers);
    forall i | 0 <= i < |all|
      ensures all[i].time != time
    {
      ClippingLosesNothing(readers, all[i]);
    }
    NoneAtTime(all, time);
  }
}
