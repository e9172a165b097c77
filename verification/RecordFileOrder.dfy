/** When exactly a closed record file holds the messages in their order, and when exactly its header
    covers them: what a swap that overtakes the flush thread does to the file. */
module RecordFileOrder {
  import opened Options
  import opened RecordFileWriters
  import opened RecordReaders

  ghost predicate Distinct(messages: seq<Message>) {
    forall i, j {:trigger messages[i], messages[j]} | 0 <= i < j < |messages| :: messages[i] != messages[j]
  }

  ghost predicate GivenAt(given: seq<Message>, a: int, x: Message, b: int, y: Message) {
    0 <= a < b < |given| && given[a] == x && given[b] == y
  }

  /** y was given after x. */
  ghost predicate Later(given: seq<Message>, y: Message, x: Message) {
    exists a, b :: GivenAt(given, a, x, b, y)
  }

  lemma LaterExtends(given: seq<Message>, m: Message, y: Message, x: Message)
    requires Later(given, y, x)
    ensures Later(given + [m], y, x)
  {
    var a, b :| GivenAt(given, a, x, b, y);
    assert GivenAt(given + [m], a, x, b, y);
  }

  // ----- a swap that overtakes turns two messages round for good -----

  /** The message at p in the file was given after x, which comes behind it in the file or is still
      in a chunk. */
  ghost predicate Settled(s: State, p: int, x: Message) {
    var file := Messages(s.file);
    && 0 <= p < |file| && Later(s.given, file[p], x)
    && (x in file[p + 1..] || x in InFlush(s) || x in s.active.messages)
  }

  /** The flush chunk has a message given after one of the active chunk. */
  ghost predicate TurnedRound(s: State, y: Message, x: Message) {
    y in InFlush(s) && x in s.active.messages && Later(s.given, y, x)
  }

  ghost predicate Inverted(s: State) {
    (exists p, x :: Settled(s, p, x)) || (exists y, x :: TurnedRound(s, y, x))
  }

  /** Before the swap in WriteMessage the active chunk ends with the newest message. */
  ghost predicate SwapsNewest(s: State) {
    s.client.WantsSwap? ==>
      s.active.messages != [] && s.given != []
      && s.active.messages[|s.active.messages| - 1] == s.given[|s.given| - 1]
  }

  ghost predicate OrderInv(s: State) {
    SwapsNewest(s) && (s.overtaken && !s.failed && Distinct(s.given) ==> Inverted(s))
  }

  lemma WriteMessageOrder(s: State, s': State)
    requires OrderInv(s) && WriteMessage(s, s')
    ensures OrderInv(s')
  {
    var m := s'.given[|s'.given| - 1];
    if s'.overtaken && !s'.failed && Distinct(s'.given) {
      assert forall i | 0 <= i < |s.given| :: s'.given[i] == s.given[i];
      if p, x :| Settled(s, p, x) {
        LaterExtends(s.given, m, Messages(s.file)[p], x);
        assert Settled(s', p, x);
      } else {
        var y, x :| TurnedRound(s, y, x);
        LaterExtends(s.given, m, y, x);
        assert TurnedRound(s', y, x);
      }
    }
  }

  lemma {:induction false} OnlyOnce(messages: seq<Message>, m: Message)
    requires Distinct(messages)
    ensures multiset(messages)[m] <= 1
  {
    if messages != [] {
      var n := |messages| - 1;
      OnlyOnce(messages[..n], m);
      assert messages == messages[..n] + [messages[n]];
      assert forall i | 0 <= i < n :: messages[i] != messages[n];
      assert messages[n] !in messages[..n];
    }
  }

  /** The swap puts the newest message in front of the older ones of the flush chunk. */
  lemma OvertakingTurnsRound(s: State, s': State)
    requires Ledger(s) && OrderInv(s) && Swap(s, s') && s.client.WantsSwap? && s.flush.number != 0
    requires Distinct(s.given)
    ensures Inverted(s')
  {
    var x, y := s.flush.messages[0], s.given[|s.given| - 1];
    assert x in multiset(InFlush(s)) && y in multiset(s.active.messages);
    OnlyOnce(s.given, x);
    assert x in multiset(s.given);
    assert x != y;
    var a :| 0 <= a < |s.given| && s.given[a] == x;
    assert GivenAt(s.given, a, x, |s.given| - 1, y);
    assert y in s.active.messages;
    assert TurnedRound(s', y, x);
  }

  lemma SwapOrder(s: State, s': State)
    requires Ledger(s) && CloseInv(s) && OrderInv(s) && Swap(s, s')
    ensures OrderInv(s')
  {
    if s'.overtaken && !s'.failed && Distinct(s'.given) {
      if s.flush.number != 0 {
        OvertakingTurnsRound(s, s');
      } else {
        assert InFlush(s) == [];
        var p, x :| Settled(s, p, x);
        assert Settled(s', p, x);
      }
    }
  }

  lemma StaysSettled(s: State, s': State, p: int, x: Message)
    requires Settled(s, p, x) && WriteChunk(s, s') && Messages(s'.file) == Messages(s.file) + s.flush.messages
    ensures Settled(s', p, x)
  {
    var file, file' := Messages(s.file), Messages(s'.file);
    assert file'[p] == file[p];
    assert file'[p + 1..] == file[p + 1..] + s.flush.messages;
    if x in InFlush(s) {
      assert x in file[p + 1..] + s.flush.messages;
    }
  }

  lemma TurnedRoundSettles(s: State, s': State, y: Message, x: Message) returns (p: int)
    requires TurnedRound(s, y, x) && WriteChunk(s, s') && Messages(s'.file) == Messages(s.file) + s.flush.messages
    ensures Settled(s', p, x)
  {
    var k :| 0 <= k < |s.flush.messages| && s.flush.messages[k] == y;
    p := |Messages(s.file)| + k;
    assert Messages(s'.file)[p] == y;
  }

  lemma WriteChunkOrder(s: State, s': State)
    requires NoIndex(s.file) && OrderInv(s) && WriteChunk(s, s')
    ensures OrderInv(s')
  {
    ChunkSectionsHold(s.file, s.flush);
    if s'.overtaken && !s'.failed && Distinct(s'.given) {
      if p, x :| Settled(s, p, x) {
        StaysSettled(s, s', p, x);
      } else {
        var y, x :| TurnedRound(s, y, x);
        var p := TurnedRoundSettles(s, s', y, x);
      }
    }
  }

  /** A step that moves no message. */
  lemma SameOrder(s: State, s': State)
    requires OrderInv(s) && Messages(s'.file) == Messages(s.file) && InFlush(s') == InFlush(s)
    requires s'.active == s.active && s'.given == s.given && s'.overtaken == s.overtaken
    requires (s.failed ==> s'.failed) && (s'.client.WantsSwap? ==> s.client.WantsSwap?)
    ensures OrderInv(s')
  {
    if s'.overtaken && !s'.failed && Distinct(s'.given) {
      if p, x :| Settled(s, p, x) {
        assert Settled(s', p, x);
      } else {
        var y, x :| TurnedRound(s, y, x);
        assert TurnedRound(s', y, x);
      }
    }
  }

  lemma FlusherOrder(s: State, s': State)
    requires OrderInv(s) && (FlusherMoves(s, s') || Clear(s, s'))
    ensures OrderInv(s')
  {
    SameOrder(s, s');
  }

  lemma SectionOrder(s: State, s': State)
    requires OrderInv(s) && CloseInv(s) && (WriteChannel(s, s') || CloseStep(s, s'))
    ensures OrderInv(s')
  {
    if s'.file != s.file {
      MessagesConcat(s.file, [s'.file[|s.file|]]);
      assert Messages([s'.file[|s.file|]]) == [];
    }
    SameOrder(s, s');
  }

  lemma NextOrder(s: State, s': State)
    requires Inv(s) && OrderInv(s) && Next(s, s')
    ensures OrderInv(s')
  {
    if WriteMessage(s, s') {
      WriteMessageOrder(s, s');
    } else if Swap(s, s') {
      SwapOrder(s, s');
    } else if WriteChunk(s, s') {
      WriteChunkOrder(s, s');
    } else if WriteChunkFails(s, s') {
    } else if FlusherMoves(s, s') || Clear(s, s') {
      FlusherOrder(s, s');
    } else {
      SectionOrder(s, s');
    }
  }

  lemma {:induction false} RunOrder(run: seq<State>, i: nat)
    requires IsRun(run) && i < |run|
    ensures OrderInv(run[i])
  {
    if i > 0 {
      RunOrder(run, i - 1);
      RunInv(run, i - 1);
      assert Next(run[i - 1], run[i]);
      NextOrder(run[i - 1], run[i]);
    }
  }

  lemma BehindIsLater(given: seq<Message>, p: nat, x: Message)
    requires Distinct(given) && p < |given| && x in given[p + 1..]
    ensures !Later(given, given[p], x)
  {
    var q :| 0 <= q < |given[p + 1..]| && given[p + 1..][q] == x;
    assert given[p + 1 + q] == x;
    forall a, b
      ensures !GivenAt(given, a, x, b, given[p])
    {
      assert GivenAt(given, a, x, b, given[p]) ==> b == p && a == p + 1 + q;
    }
  }

  /** A file closed without failed writes holds different messages in the order in which they were
      given if and only if no swap overtook the flush thread. */
  lemma OrderIffNotOvertaken(run: seq<State>, i: nat)
    requires IsRun(run) && i < |run| && run[i].client.Closed? && !run[i].failed && Distinct(run[i].given)
    ensures Messages(run[i].file) == run[i].given <==> !run[i].overtaken
  {
    var s := run[i];
    if !s.overtaken {
      ClosedFileKeepsOrder(run, i);
    } else {
      RunOrder(run, i);
      RunInv(run, i);
      assert InFlush(s) == [] && s.active.messages == [];
      var p, x :| Settled(s, p, x);
      if Messages(s.file) == s.given {
        BehindIsLater(s.given, p, x);
      }
    }
  }

  // ----- limits that keep swaps away -----

  /** With neither a size nor an interval configured, WriteMessage never swaps and Close swaps only
      an empty flush chunk: no run overtakes. */
  lemma {:induction false} NoLimitsNoOvertaking(run: seq<State>, i: nat)
    requires IsRun(run) && i < |run|
    requires run[0].header.chunkInterval == 0 && run[0].header.chunkRawSize == 0
    ensures run[i].header.chunkInterval == 0 && run[i].header.chunkRawSize == 0
    ensures !run[i].client.WantsSwap? && !run[i].overtaken
  {
    if i > 0 {
      NoLimitsNoOvertaking(run, i - 1);
      RunInv(run, i - 1);
      assert Next(run[i - 1], run[i]);
      NoLimitsStep(run[i - 1], run[i]);
    }
  }

  lemma NoLimitsStep(s: State, s': State)
    requires CloseInv(s) && Next(s, s') && !s.client.WantsSwap? && !s.overtaken
    requires s.header.chunkInterval == 0 && s.header.chunkRawSize == 0
    ensures s'.header.chunkInterval == 0 && s'.header.chunkRawSize == 0 && !s'.client.WantsSwap? && !s'.overtaken
  {
  }

  // ----- the times in the file header -----

  ghost predicate NoneBefore(messages: seq<Message>, time: nat) {
    forall i {:trigger messages[i]} | 0 <= i < |messages| :: time <= messages[i].time
  }

  ghost predicate NoneAfter(messages: seq<Message>, time: nat) {
    forall i {:trigger messages[i]} | 0 <= i < |messages| :: messages[i].time <= time
  }

  ghost predicate BeginsAt(messages: seq<Message>, time: nat) {
    NoneBefore(messages, time) && exists i :: 0 <= i < |messages| && messages[i].time == time
  }

  ghost predicate EndsAt(messages: seq<Message>, time: nat) {
    NoneAfter(messages, time) && exists i :: 0 <= i < |messages| && messages[i].time == time
  }

  function LastBody(sections: seq<Section>): Option<seq<Message>> {
    if sections == [] then None
    else if sections[|sections| - 1].ChunkBody? then Some(sections[|sections| - 1].messages)
    else LastBody(sections[..|sections| - 1])
  }

  lemma {:induction false} FirstBodyStays(a: seq<Section>, b: seq<Section>)
    requires NoIndex(a)
    ensures NextBody(a + b) == if NextBody(a).Some? then NextBody(a) else NextBody(b)
  {
    if a == [] {
      assert a + b == b;
    } else {
      assert (a + b)[1..] == a[1..] + b;
      FirstBodyStays(a[1..], b);
    }
  }

  lemma BodiesAfterChunk(file: seq<Section>, c: Chunk)
    requires NoIndex(file)
    ensures NextBody(file + ChunkSections(c)) == if NextBody(file).Some? then NextBody(file) else Some(c.messages)
    ensures LastBody(file + ChunkSections(c)) == Some(c.messages)
  {
    FirstBodyStays(file, ChunkSections(c));
    assert ChunkSections(c)[1..] == [ChunkBody(c.messages)];
  }

  lemma BodiesAfterOther(file: seq<Section>, section: Section)
    requires NoIndex(file) && !section.ChunkBody?
    ensures NextBody(file + [section]) == NextBody(file) && LastBody(file + [section]) == LastBody(file)
  {
    FirstBodyStays(file, [section]);
    assert (file + [section])[..|file|] == file;
  }

  /** The header begins with the first chunk written and ends with the last one. */
  ghost predicate HeaderTimes(h: Header, first: Option<seq<Message>>, last: Option<seq<Message>>) {
    && (first.Some? <==> last.Some?)
    && (first.None? ==> h.begin == 0)
    && (first.Some? ==> h.begin > 0 && BeginsAt(first.value, h.begin))
    && (last.Some? ==> EndsAt(last.value, h.end))
  }

  ghost predicate BodiesInv(s: State) {
    && (Positive(s.given) ==> HeaderTimes(s.header, NextBody(s.file), LastBody(s.file)))
    && (LastBody(s.file).Some? ==> forall m | m in LastBody(s.file).value :: m in Messages(s.file))
  }

  lemma WriteChunkBodies(s: State, s': State)
    requires Ledger(s) && NoIndex(s.file) && BodiesInv(s) && WriteChunk(s, s')
    ensures BodiesInv(s')
  {
    ChunkSectionsHold(s.file, s.flush);
    BodiesAfterChunk(s.file, s.flush);
    if Positive(s.given) {
      AllPositive(s);
      var k :| 0 <= k < |s.flush.messages| && s.flush.messages[k].time == s.flush.begin;
      assert BeginsAt(s.flush.messages, s.flush.begin) && EndsAt(s.flush.messages, s.flush.end);
    }
  }

  lemma OtherBodies(s: State, s': State)
    requires BodiesInv(s) && CloseInv(s) && (Positive(s'.given) ==> Positive(s.given))
    requires s'.file == s.file
             || (NoIndex(s.file) && |s'.file| == |s.file| + 1 && s'.file == s.file + [s'.file[|s.file|]]
                 && !s'.file[|s.file|].ChunkBody?)
    requires s'.header.begin == s.header.begin && s'.header.end == s.header.end
    ensures BodiesInv(s')
  {
    if s'.file != s.file {
      var section := s'.file[|s.file|];
      BodiesAfterOther(s.file, section);
      MessagesConcat(s.file, [section]);
    }
  }

  lemma ClientBodies(s: State, s': State)
    requires CloseInv(s) && BodiesInv(s) && (WriteMessage(s, s') || Swap(s, s') || WriteChannel(s, s'))
    ensures BodiesInv(s')
  {
    if WriteMessage(s, s') {
      assert forall i | 0 <= i < |s.given| :: s'.given[i] == s.given[i];
    }
    OtherBodies(s, s');
  }

  lemma CloseBodies(s: State, s': State)
    requires CloseInv(s) && BodiesInv(s) && CloseStep(s, s')
    ensures BodiesInv(s')
  {
    OtherBodies(s, s');
  }

  lemma FlusherBodies(s: State, s': State)
    requires CloseInv(s) && BodiesInv(s) && (FlusherMoves(s, s') || WriteChunkFails(s, s') || Clear(s, s'))
    ensures BodiesInv(s')
  {
    OtherBodies(s, s');
  }

  lemma NextBodies(s: State, s': State)
    requires Inv(s) && BodiesInv(s) && Next(s, s')
    ensures BodiesInv(s')
  {
    if WriteChunk(s, s') {
      WriteChunkBodies(s, s');
    } else if CloseStep(s, s') {
      CloseBodies(s, s');
    } else if WriteMessage(s, s') || Swap(s, s') || WriteChannel(s, s') {
      ClientBodies(s, s');
    } else {
      FlusherBodies(s, s');
    }
  }

  lemma {:induction false} RunBodies(run: seq<State>, i: nat)
    requires IsRun(run) && i < |run|
    ensures BodiesInv(run[i])
  {
    if i > 0 {
      RunBodies(run, i - 1);
      RunInv(run, i - 1);
      assert Next(run[i - 1], run[i]);
      NextBodies(run[i - 1], run[i]);
    }
  }

  ghost predicate StrictlyAscending(messages: seq<Message>) {
    forall i, j {:trigger messages[i], messages[j]} | 0 <= i < j < |messages| :: messages[i].time < messages[j].time
  }

  ghost predicate Among(part: seq<Message>, all: seq<Message>) {
    forall m | m in part :: m in all
  }

  lemma SameMessages(a: seq<Message>, b: seq<Message>)
    requires multiset(a) == multiset(b)
    ensures Among(a, b) && Among(b, a)
  {
    forall m: Message
      ensures m in a <==> m in b
    {
      assert m in multiset(a) <==> m in multiset(b);
    }
  }

  /** A chunk's begin time bounds all messages if and only if the chunk holds the first of them. */
  lemma BeginIff(given: seq<Message>, file: seq<Message>, body: seq<Message>, begin: nat)
    requires StrictlyAscending(given) && given != [] && Among(given, file) && Among(file, given)
    requires Among(body, file) && BeginsAt(body, begin)
    ensures NoneBefore(file, begin) <==> given[0] in body
  {
    var k :| 0 <= k < |body| && body[k].time == begin;
    assert body[k] in body && body[k] in given;
    var j :| 0 <= j < |given| && given[j] == body[k];
    assert given[0] in file;
    if given[0] in body {
      forall i | 0 <= i < |file|
        ensures begin <= file[i].time
      {
        assert file[i] in given;
        assert forall n | 0 < n < |given| :: given[0].time < given[n].time;
      }
    } else {
      var n :| 0 <= n < |file| && file[n] == given[0];
      assert j != 0 && file[n].time < begin;
    }
  }

  lemma EndIff(given: seq<Message>, file: seq<Message>, body: seq<Message>, end: nat)
    requires StrictlyAscending(given) && given != [] && Among(given, file) && Among(file, given)
    requires Among(body, file) && EndsAt(body, end)
    ensures NoneAfter(file, end) <==> given[|given| - 1] in body
  {
    var last := |given| - 1;
    var k :| 0 <= k < |body| && body[k].time == end;
    assert body[k] in body && body[k] in given;
    var j :| 0 <= j < |given| && given[j] == body[k];
    assert given[last] in file;
    if given[last] in body {
      forall i | 0 <= i < |file|
        ensures file[i].time <= end
      {
        assert file[i] in given;
        assert forall n | 0 <= n < last :: given[n].time < given[last].time;
      }
    } else {
      var n :| 0 <= n < |file| && file[n] == given[last];
      assert j != last && end < file[n].time;
    }
  }

  /** The header is the one on the file, and the bodies are part of it. */
  lemma ClosedBodies(run: seq<State>, i: nat)
    requires IsRun(run) && i < |run| && run[i].client.Closed? && !run[i].failed
    requires Positive(run[i].given) && run[i].given != []
    ensures Accurate(run[i].file)
    ensures Among(Messages(run[i].file), run[i].given) && Among(run[i].given, Messages(run[i].file))
    ensures NextBody(run[i].file).Some? && LastBody(run[i].file).Some?
    ensures Among(NextBody(run[i].file).value, Messages(run[i].file))
    ensures Among(LastBody(run[i].file).value, Messages(run[i].file))
    ensures BeginsAt(NextBody(run[i].file).value, run[i].onFile.begin)
    ensures EndsAt(LastBody(run[i].file).value, run[i].onFile.end)
  {
    var file := run[i].file;
    RunInv(run, i);
    RunBodies(run, i);
    ClosedFileHolds(run, i);
    PairsAreAccurate(file);
    SameMessages(Messages(file), run[i].given);
    assert run[i].given[0] in Messages(file);
    if NextBody(file).None? {
      NoBodyNoMessages(file);
    } else {
      NextBodyIsFirst(file);
    }
  }

  /** For messages with strictly ascending nonzero times and no failed write, the header of the
      closed file covers the messages if and only if the first chunk written holds the first message
      given and the last chunk written holds the last one.  The chunk headers are accurate anyway. */
  lemma HeaderIff(run: seq<State>, i: nat)
    requires IsRun(run) && i < |run| && run[i].client.Closed? && !run[i].failed
    requires Positive(run[i].given) && StrictlyAscending(run[i].given) && run[i].given != []
    ensures Accurate(run[i].file) && NextBody(run[i].file).Some? && LastBody(run[i].file).Some?
    ensures Within(Messages(run[i].file), run[i].onFile.begin, run[i].onFile.end) <==>
            run[i].given[0] in NextBody(run[i].file).value
            && run[i].given[|run[i].given| - 1] in LastBody(run[i].file).value
  {
    var s := run[i];
    var file := Messages(s.file);
    ClosedBodies(run, i);
    BeginIff(s.given, file, NextBody(s.file).value, s.onFile.begin);
    EndIff(s.given, file, LastBody(s.file).value, s.onFile.end);
    assert Within(file, s.onFile.begin, s.onFile.end) <==>
           NoneBefore(file, s.onFile.begin) && NoneAfter(file, s.onFile.end);
  }
}
