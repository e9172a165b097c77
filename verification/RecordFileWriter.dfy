/** RecordFileWriter: messages are collected in an active chunk, which is swapped with a flush chunk
    that a second thread writes to the file.

    The client (RecordWriter calls it under its own mutex) and the flush thread take turns in any
    order.  The swap, and writing and clearing a chunk, exclude each other by flush_mutex_; sections
    are written under mutex_, so that WriteChunk and WriteChannel are one step each.  Writing a
    section may fail.  Offsets in the file and the sizes of sections are left out. */
module RecordFileWriters {
  import opened RecordReaders

  // ----- chunks -----

  datatype Chunk = Chunk(messages: seq<Message>, begin: nat, end: nat, number: nat, rawSize: nat)

  const EMPTY_CHUNK := Chunk([], 0, 0, 0, 0)

  function Add(c: Chunk, m: Message): Chunk {
    Chunk(c.messages + [m],
          if c.begin == 0 || c.begin > m.time then m.time else c.begin,
          if c.end < m.time then m.time else c.end,
          c.number + 1, c.rawSize + |m.content|)
  }

  /** Every message has a nonzero time. */
  ghost predicate Positive(messages: seq<Message>) {
    forall i {:trigger messages[i]} | 0 <= i < |messages| :: messages[i].time > 0
  }

  function RawSize(messages: seq<Message>): nat {
    if messages == [] then 0 else RawSize(messages[..|messages| - 1]) + |messages[|messages| - 1].content|
  }

  /** The header of a chunk is accurate; for its times this needs nonzero message times, for a zero
      begin time stands for none. */
  ghost predicate ChunkInv(c: Chunk) {
    && c.number == |c.messages| && c.rawSize == RawSize(c.messages)
    && (Positive(c.messages) ==> Within(c.messages, c.begin, c.end))
    && (c.messages == [] ==> c.begin == c.end == 0)
    && (c.messages != [] ==>
          && (exists i :: 0 <= i < |c.messages| && c.messages[i].time == c.begin)
          && (exists i :: 0 <= i < |c.messages| && c.messages[i].time == c.end))
  }

  lemma AddKeeps(c: Chunk, m: Message)
    requires ChunkInv(c)
    ensures ChunkInv(Add(c, m))
  {
    var c' := Add(c, m);
    var n := |c.messages|;
    assert c'.messages[..n] == c.messages;
    assert c'.messages[n] == m;
    if c.messages != [] {
      var i :| 0 <= i < n && c.messages[i].time == c.begin;
      var j :| 0 <= j < n && c.messages[j].time == c.end;
      assert c'.messages[i].time == c.begin && c'.messages[j].time == c.end;
    }
    if Positive(c'.messages) {
      assert forall i | 0 <= i < n :: c.messages[i] == c'.messages[i];
    }
  }

  // ----- the writer -----

  /** The client's place in WriteMessage and in Close, and the flush thread's in Flush. */
  datatype Client =
    | Ready | WantsSwap
    | WaitsForFlush | LastSwap | WaitsForLastFlush | Stopping | Joining | WritingIndex | WritingHeader | Closed

  datatype Flusher = Top | Waiting | Writing | Clearing | Ended

  datatype Header = Header(
    chunkInterval: nat, chunkRawSize: nat,
    begin: nat, end: nat, chunkNumber: nat, channelNumber: nat, messageNumber: nat, complete: bool)

  /** `file` are the sections behind the header section and `onFile` is the header section itself.
      `given` records all messages passed to WriteMessage and `channels` the names of the channels that
      WriteChannel has written; `lost` are the messages of the chunks that could
      not be written; `overtaken` whether a swap ever came before the flush chunk was written. */
  datatype State = State(
    active: Chunk, flush: Chunk, header: Header, counts: map<string, nat>,
    file: seq<Section>, index: seq<SingleIndex>, onFile: Header,
    isWriting: bool, client: Client, flusher: Flusher,
    given: seq<Message>, channels: seq<string>, lost: seq<Message>, failed: bool, overtaken: bool)

  /** A file just opened, with the header that RecordWriter passed to WriteHeader. */
  ghost predicate Init(s: State) {
    && s.active == EMPTY_CHUNK && s.flush == EMPTY_CHUNK && s.counts == map[] && s.file == [] && s.index == []
    && s.header == Header(s.header.chunkInterval, s.header.chunkRawSize, 0, 0, 0, 0, 0, false) == s.onFile
    && s.isWriting && s.client == Ready && s.flusher == Top
    && s.given == [] && s.channels == [] && s.lost == [] && !s.failed && !s.overtaken
  }

  /** The flush thread holds flush_mutex_ from the moment its wait ends until it has cleared the chunk. */
  ghost predicate FlushMutexHeld(s: State) {
    s.flusher == Writing || s.flusher == Clearing
  }

  // ----- the steps of the client -----

  predicate NeedsFlush(h: Header, c: Chunk, m: Message) {
    || (h.chunkInterval > 0 && m.time - c.begin > h.chunkInterval)
    || (h.chunkRawSize > 0 && c.rawSize > h.chunkRawSize)
  }

  function Counted(counts: map<string, nat>, channel: string): map<string, nat> {
    if channel in counts then counts[channel := counts[channel] + 1] else counts[channel := 1]
  }

  ghost predicate WriteMessage(s: State, s': State) {
    && s.client == Ready && s'.given != []
    && var m := s'.given[|s'.given| - 1];
    && var active := Add(s.active, m);
    && s' == s.(active := active, counts := Counted(s.counts, m.channel), given := s.given + [m],
                client := if NeedsFlush(s.header, active, m) then WantsSwap else Ready)
  }

  /** The swap in WriteMessage and the last one in Close. */
  ghost predicate Swap(s: State, s': State) {
    && (s.client == WantsSwap || s.client == LastSwap) && !FlushMutexHeld(s)
    && s' == s.(active := s.flush, flush := s.active, overtaken := s.overtaken || s.flush.number != 0,
                client := if s.client == WantsSwap then Ready else WaitsForLastFlush)
  }

  ghost predicate WriteChannel(s: State, s': State) {
    && s.client == Ready
    && (|| s' == s.(failed := true)
        || (s'.channels != []
            && var name := s'.channels[|s'.channels| - 1];
            s' == s.(channels := s.channels + [name], file := s.file + [Channel(name)],
                     index := s.index + [ChannelIndex(name, 0)],
                     header := s.header.(channelNumber := s.header.channelNumber + 1))))
  }

  /** The remaining steps of Close. */
  ghost predicate CloseStep(s: State, s': State) {
    match s.client
    case Ready => s' == s.(client := WaitsForFlush)
    case WaitsForFlush => s.flush.number == 0 && s' == s.(client := LastSwap)
    case WaitsForLastFlush => s.flush.number == 0 && s' == s.(client := Stopping)
    case Stopping => s' == s.(client := Joining, isWriting := false)
    case Joining => s.flusher == Ended && s' == s.(client := WritingIndex)
    case WritingIndex =>
      var index := FilledIn(s.index, s.counts);
      || s' == s.(client := WritingHeader, index := index, file := s.file + [Index(index)])
      || s' == s.(client := WritingHeader, index := index, failed := true)
    case WritingHeader =>
      var header := s.header.(complete := true);
      || s' == s.(client := Closed, header := header, onFile := header)
      || s' == s.(client := Closed, header := header, failed := true)
    case _ => false
  }

  /** The message numbers are filled in where the channel has messages. */
  function FilledIn(index: seq<SingleIndex>, counts: map<string, nat>): (r: seq<SingleIndex>)
    ensures |r| == |index|
    ensures forall i | 0 <= i < |index| ::
              r[i] == if index[i].ChannelIndex? && index[i].name in counts
                      then ChannelIndex(index[i].name, counts[index[i].name]) else index[i]
  {
    if index == [] then []
    else
      var entry := index[0];
      [if entry.ChannelIndex? && entry.name in counts then ChannelIndex(entry.name, counts[entry.name]) else entry]
      + FilledIn(index[1..], counts)
  }

  // ----- the steps of the flush thread -----

  ghost predicate FlusherMoves(s: State, s': State) {
    || (s.flusher == Top && s' == s.(flusher := if s.isWriting then Waiting else Ended))
    || (s.flusher == Waiting && !s.isWriting && s' == s.(flusher := Ended))
    || (s.flusher == Waiting && s.isWriting && s.flush.number != 0 && s' == s.(flusher := Writing))
  }

  /** The two sections of a chunk in the file. */
  function ChunkSections(c: Chunk): seq<Section> {
    [ChunkHeader(c.begin, c.end, c.number, c.rawSize), ChunkBody(c.messages)]
  }

  /** And their entries in the index. */
  function ChunkEntries(c: Chunk): seq<SingleIndex> {
    [ChunkHeaderIndex(c.begin, c.end, c.number, c.rawSize), ChunkBodyIndex(|c.messages|)]
  }

  ghost predicate WriteChunk(s: State, s': State) {
    && s.flusher == Writing
    && var c := s.flush;
    && s' == s.(flusher := Clearing,
                file := s.file + ChunkSections(c),
                index := s.index + ChunkEntries(c),
                header := s.header.(chunkNumber := s.header.chunkNumber + 1,
                                    begin := if s.header.begin == 0 then c.begin else s.header.begin,
                                    end := c.end, messageNumber := s.header.messageNumber + c.number))
  }

  /** Writing the chunk header, or after it the chunk body, fails. */
  ghost predicate WriteChunkFails(s: State, s': State) {
    && s.flusher == Writing
    && var c := s.flush;
    && var failed := s.(flusher := Clearing, failed := true, lost := s.lost + c.messages);
    || s' == failed
    || s' == failed.(file := s.file + ChunkSections(c)[..1], index := s.index + ChunkEntries(c)[..1])
  }

  ghost predicate Clear(s: State, s': State) {
    s.flusher == Clearing && s' == s.(flush := EMPTY_CHUNK, flusher := Top)
  }

  ghost predicate Next(s: State, s': State) {
    || WriteMessage(s, s') || Swap(s, s') || WriteChannel(s, s') || CloseStep(s, s')
    || FlusherMoves(s, s') || WriteChunk(s, s') || WriteChunkFails(s, s') || Clear(s, s')
  }

  // ----- the invariant -----

  /** The flush chunk's messages that are not dealt with yet. */
  ghost function InFlush(s: State): seq<Message> {
    if s.flusher == Clearing then [] else s.flush.messages
  }

  /** Nothing is lost in memory: each message given is in the file, in one of the chunks, or was
      lost in a chunk that could not be written. */
  ghost predicate Conserved(s: State) {
    multiset(Messages(s.file)) + multiset(s.lost) + multiset(InFlush(s)) + multiset(s.active.messages)
    == multiset(s.given)
  }

  /** As long as no swap overtakes the flush thread, the order is kept as well. */
  ghost predicate InOrder(s: State) {
    s.lost == [] && !s.overtaken ==> Messages(s.file) + InFlush(s) + s.active.messages == s.given
  }

  ghost predicate ChunksInv(s: State) {
    && ChunkInv(s.active) && ChunkInv(s.flush)
    && (FlushMutexHeld(s) ==> s.flush.messages != [])
    && (!s.failed ==> s.lost == [])
  }

  /** Where Close has got to. */
  ghost predicate CloseInv(s: State) {
    && (s.client == LastSwap ==> s.flush.number == 0)
    && (s.client == WaitsForLastFlush ==> s.active.number == 0)
    && (s.client.Stopping? || s.client.Joining? || s.client.WritingIndex? || s.client.WritingHeader? || s.client.Closed? ==>
          s.active.number == 0 && s.flush.number == 0)
    && (s.client.WritingHeader? || s.client.Closed? || NoIndex(s.file))
    && (s.client.WritingIndex? || s.client.WritingHeader? || s.client.Closed? ==> s.flusher == Ended)
    && (s.flusher == Ended ==> !s.isWriting)
    && (s.isWriting <==> !(s.client.Joining? || s.client.WritingIndex? || s.client.WritingHeader? || s.client.Closed?))
  }

  ghost predicate NoIndex(sections: seq<Section>) {
    forall i {:trigger sections[i]} | 0 <= i < |sections| :: !sections[i].Index?
  }

  /** The messages are accounted for. */
  ghost predicate Ledger(s: State) {
    ChunksInv(s) && Conserved(s) && InOrder(s)
  }

  lemma {:induction false} MessagesConcat(a: seq<Section>, b: seq<Section>)
    requires NoIndex(a)
    ensures Messages(a + b) == Messages(a) + Messages(b)
  {
    if a == [] {
      assert a + b == b;
    } else {
      assert (a + b)[1..] == a[1..] + b;
      MessagesConcat(a[1..], b);
    }
  }

  /** A step that touches no chunk, and no chunk in the file. */
  lemma SameLedger(s: State, s': State)
    requires Ledger(s) && s'.active == s.active && s'.flush == s.flush && s'.given == s.given
    requires s'.lost == s.lost && s'.overtaken == s.overtaken && (s.failed ==> s'.failed)
    requires InFlush(s') == InFlush(s) && Messages(s'.file) == Messages(s.file)
    requires FlushMutexHeld(s') ==> s.flush.messages != []
    ensures Ledger(s')
  {
  }

  /** A message has been added to the active chunk. */
  lemma MessageJoins(s: State, s': State, m: Message)
    requires Ledger(s) && s'.file == s.file && s'.flush == s.flush && s'.flusher == s.flusher
    requires s'.lost == s.lost && s'.overtaken == s.overtaken && s'.failed == s.failed
    requires ChunkInv(s'.active) && s'.active.messages == s.active.messages + [m] && s'.given == s.given + [m]
    ensures Ledger(s')
  {
    var before := Messages(s.file) + InFlush(s);
    assert before + (s.active.messages + [m]) == (before + s.active.messages) + [m];
  }

  lemma WriteMessageLedger(s: State, s': State)
    requires Ledger(s) && WriteMessage(s, s')
    ensures Ledger(s')
  {
    var m := s'.given[|s'.given| - 1];
    AddKeeps(s.active, m);
    MessageJoins(s, s', m);
  }

  lemma SwapLedger(s: State, s': State)
    requires Ledger(s) && Swap(s, s')
    ensures Ledger(s')
  {
  }

  lemma WriteChannelLedger(s: State, s': State)
    requires Ledger(s) && NoIndex(s.file) && WriteChannel(s, s')
    ensures Ledger(s')
  {
    if s'.file != s.file {
      MessagesConcat(s.file, [s'.file[|s.file|]]);
      assert Messages([s'.file[|s.file|]]) == [];
    }
    SameLedger(s, s');
  }

  lemma CloseStepLedger(s: State, s': State)
    requires Ledger(s) && CloseInv(s) && CloseStep(s, s')
    ensures Ledger(s')
  {
    if s.client.WritingIndex? {
      var index := Index(FilledIn(s.index, s.counts));
      MessagesConcat(s.file, [index]);
      assert Messages([index]) == [];
    }
    SameLedger(s, s');
  }

  lemma FlusherMovesLedger(s: State, s': State)
    requires Ledger(s) && FlusherMoves(s, s')
    ensures Ledger(s')
  {
    SameLedger(s, s');
  }

  function Bodies(sections: seq<Section>): nat {
    if sections == [] then 0 else (if sections[0].ChunkBody? then 1 else 0) + Bodies(sections[1..])
  }

  lemma {:induction false} BodiesConcat(a: seq<Section>, b: seq<Section>)
    ensures Bodies(a + b) == Bodies(a) + Bodies(b)
  {
    if a == [] {
      assert a + b == b;
    } else {
      assert (a + b)[1..] == a[1..] + b;
      BodiesConcat(a[1..], b);
    }
  }

  lemma ChunkSectionsHold(file: seq<Section>, c: Chunk)
    requires NoIndex(file)
    ensures NoIndex(file + ChunkSections(c))
    ensures Messages(file + ChunkSections(c)) == Messages(file) + c.messages
    ensures Bodies(file + ChunkSections(c)) == Bodies(file) + 1
  {
    MessagesConcat(file, ChunkSections(c));
    BodiesConcat(file, ChunkSections(c));
    assert ChunkSections(c)[1..] == [ChunkBody(c.messages)];
    assert Bodies([ChunkBody(c.messages)]) == 1;
    assert Messages([ChunkBody(c.messages)]) == c.messages + [];
  }

  /** The flush chunk's messages have gone into the file. */
  lemma ChunkMoves(s: State, s': State)
    requires Ledger(s) && s.flusher == Writing && s'.flusher == Clearing
    requires s'.active == s.active && s'.flush == s.flush && s'.given == s.given
    requires s'.lost == s.lost && s'.overtaken == s.overtaken && s'.failed == s.failed
    requires Messages(s'.file) == Messages(s.file) + s.flush.messages
    ensures Ledger(s')
  {
    assert InFlush(s) == s.flush.messages && InFlush(s') == [];
  }

  lemma WriteChunkLedger(s: State, s': State)
    requires Ledger(s) && NoIndex(s.file) && WriteChunk(s, s')
    ensures Ledger(s')
  {
    ChunkSectionsHold(s.file, s.flush);
    ChunkMoves(s, s');
  }

  /** The flush chunk's messages are lost. */
  lemma ChunkIsLost(s: State, s': State)
    requires Ledger(s) && s.flusher == Writing && s'.flusher == Clearing && s'.failed
    requires s'.active == s.active && s'.flush == s.flush && s'.given == s.given
    requires s'.lost == s.lost + s.flush.messages && s'.overtaken == s.overtaken
    requires Messages(s'.file) == Messages(s.file)
    ensures Ledger(s')
  {
    assert InFlush(s) == s.flush.messages && InFlush(s') == [];
  }

  lemma WriteChunkFailsLedger(s: State, s': State)
    requires Ledger(s) && NoIndex(s.file) && WriteChunkFails(s, s')
    ensures Ledger(s')
  {
    var header := ChunkSections(s.flush)[0];
    assert ChunkSections(s.flush)[..1] == [header];
    NoBodyCounts(s.file, header);
    ChunkIsLost(s, s');
  }

  lemma ClearLedger(s: State, s': State)
    requires Ledger(s) && Clear(s, s')
    ensures Ledger(s')
  {
  }

  lemma ClientKeepsClose(s: State, s': State)
    requires ChunksInv(s) && CloseInv(s) && (WriteMessage(s, s') || WriteChannel(s, s') || Swap(s, s'))
    ensures CloseInv(s')
  {
  }

  lemma CloseStepKeepsClose(s: State, s': State)
    requires ChunksInv(s) && CloseInv(s) && CloseStep(s, s')
    ensures CloseInv(s')
  {
  }

  lemma FlusherKeepsClose(s: State, s': State)
    requires ChunksInv(s) && CloseInv(s)
    requires FlusherMoves(s, s') || WriteChunk(s, s') || WriteChunkFails(s, s') || Clear(s, s')
    ensures CloseInv(s')
  {
  }

  // ----- the header, the index and the sections -----

  function CountOn(messages: seq<Message>, channel: string): nat {
    if messages == [] then 0
    else
      var n := |messages| - 1;
      CountOn(messages[..n], channel) + (if messages[n].channel == channel then 1 else 0)
  }

  /** The header counts what is in the file. */
  ghost predicate HeaderInv(s: State) {
    && s.header.chunkNumber == Bodies(s.file) && s.header.messageNumber == |Messages(s.file)|
    && (s.client.Closed? && !s.failed ==> s.onFile == s.header && s.header.complete)
  }

  function Count(s: State, channel: string): nat {
    if channel in s.counts then s.counts[channel] else 0
  }

  ghost predicate CountInv(s: State, channel: string) {
    Count(s, channel) == CountOn(s.given, channel)
  }

  ghost predicate CountsInv(s: State) {
    forall channel {:trigger CountInv(s, channel)} :: CountInv(s, channel)
  }

  lemma WriteChunkHeader(s: State, s': State)
    requires ChunksInv(s) && NoIndex(s.file) && CloseInv(s) && HeaderInv(s) && WriteChunk(s, s')
    ensures HeaderInv(s')
  {
    ChunkSectionsHold(s.file, s.flush);
  }

  /** A section without messages counts for nothing. */
  lemma NoBodyCounts(file: seq<Section>, section: Section)
    requires NoIndex(file) && !section.ChunkBody?
    ensures Messages(file + [section]) == Messages(file) && Bodies(file + [section]) == Bodies(file)
  {
    MessagesConcat(file, [section]);
    BodiesConcat(file, [section]);
    assert Messages([section]) == [];
  }

  lemma WriteChannelHeader(s: State, s': State)
    requires CloseInv(s) && HeaderInv(s) && WriteChannel(s, s')
    ensures HeaderInv(s')
  {
    if s'.file != s.file {
      NoBodyCounts(s.file, s'.file[|s.file|]);
    }
  }

  lemma CloseStepHeader(s: State, s': State)
    requires CloseInv(s) && HeaderInv(s) && CloseStep(s, s')
    ensures HeaderInv(s')
  {
    if s'.file != s.file {
      NoBodyCounts(s.file, s'.file[|s.file|]);
    }
  }

  lemma WriteChunkFailsHeader(s: State, s': State)
    requires CloseInv(s) && HeaderInv(s) && WriteChunkFails(s, s')
    ensures HeaderInv(s')
  {
    var header := ChunkSections(s.flush)[0];
    assert ChunkSections(s.flush)[..1] == [header];
    NoBodyCounts(s.file, header);
  }

  lemma QuietHeader(s: State, s': State)
    requires HeaderInv(s) && (WriteMessage(s, s') || Swap(s, s') || FlusherMoves(s, s') || Clear(s, s'))
    requires CloseInv(s)
    ensures HeaderInv(s')
  {
  }

  lemma WriteMessageCounts(s: State, s': State)
    requires CountsInv(s) && WriteMessage(s, s')
    ensures CountsInv(s')
  {
    var m := s'.given[|s'.given| - 1];
    assert s'.given[..|s.given|] == s.given;
    forall channel
      ensures CountInv(s', channel)
    {
      assert CountInv(s, channel);
    }
  }

  lemma SameCounts(s: State, s': State)
    requires CountsInv(s) && s'.counts == s.counts && s'.given == s.given
    ensures CountsInv(s')
  {
    forall channel
      ensures CountInv(s', channel)
    {
      assert CountInv(s, channel);
    }
  }

  // ----- the times in the headers -----

  /** Section i is no chunk header, or one with its accurate chunk behind it. */
  ghost predicate PairInv(file: seq<Section>, i: nat)
    requires i < |file|
  {
    file[i].ChunkHeader? ==>
      && i + 1 < |file| && file[i + 1].ChunkBody? && file[i + 1].messages != []
      && Within(file[i + 1].messages, file[i].begin, file[i].end)
  }

  ghost predicate PairsInv(file: seq<Section>) {
    forall i {:trigger PairInv(file, i)} | 0 <= i < |file| :: PairInv(file, i)
  }

  /** The file header's times bound all messages in the file. */
  ghost predicate Covers(h: Header, messages: seq<Message>) {
    if messages == [] then h.begin == 0 else h.begin > 0 && Within(messages, h.begin, h.end)
  }

  ghost predicate TimesInv(s: State) {
    Positive(s.given) && !s.failed ==>
      && PairsInv(s.file)
      && (Sorted(s.given) && !s.overtaken ==> Covers(s.header, Messages(s.file)))
  }

  lemma AllPositive(s: State)
    requires Conserved(s) && Positive(s.given)
    ensures Positive(InFlush(s)) && Positive(s.active.messages)
  {
    forall m | m in multiset(InFlush(s)) || m in multiset(s.active.messages)
      ensures m.time > 0
    {
      assert m in multiset(s.given);
      assert m in s.given;
    }
    forall i | 0 <= i < |InFlush(s)|
      ensures InFlush(s)[i].time > 0
    {
      assert InFlush(s)[i] in multiset(InFlush(s));
    }
    forall i | 0 <= i < |s.active.messages|
      ensures s.active.messages[i].time > 0
    {
      assert s.active.messages[i] in multiset(s.active.messages);
    }
  }

  lemma WriteChunkPairs(file: seq<Section>, c: Chunk)
    requires PairsInv(file) && ChunkInv(c) && Positive(c.messages) && c.messages != []
    ensures PairsInv(file + ChunkSections(c))
  {
    var file' := file + ChunkSections(c);
    forall i | 0 <= i < |file'|
      ensures PairInv(file', i)
    {
      assert i < |file| ==> PairInv(file, i);
    }
  }

  /** The new chunk comes after all that is in the file. */
  lemma WriteChunkCovers(before: seq<Message>, c: Chunk, rest: seq<Message>, h: Header, h': Header)
    requires Covers(h, before) && ChunkInv(c) && c.messages != []
    requires Sorted(before + c.messages + rest) && Positive(c.messages)
    requires h'.begin == (if h.begin == 0 then c.begin else h.begin) && h'.end == c.end
    ensures Covers(h', before + c.messages)
  {
    var all := before + c.messages + rest;
    var k :| 0 <= k < |c.messages| && c.messages[k].time == c.begin;
    forall i | 0 <= i < |before| + |c.messages|
      ensures h'.begin <= all[i].time <= h'.end && all[i] == (before + c.messages)[i]
    {
      if i < |before| {
        assert all[i] == before[i] && all[|before|] == c.messages[0];
      } else {
        assert all[i] == c.messages[i - |before|];
        assert before != [] ==> all[0] == before[0];
      }
    }
  }

  lemma WriteChunkTimes(s: State, s': State)
    requires Ledger(s) && NoIndex(s.file) && TimesInv(s) && WriteChunk(s, s')
    ensures TimesInv(s')
  {
    if Positive(s'.given) && !s'.failed {
      AllPositive(s);
      ChunkSectionsHold(s.file, s.flush);
      WriteChunkPairs(s.file, s.flush);
      if Sorted(s.given) && !s.overtaken {
        WriteChunkCovers(Messages(s.file), s.flush, s.active.messages, s.header, s'.header);
      }
    }
  }

  lemma WriteMessageTimes(s: State, s': State)
    requires TimesInv(s) && WriteMessage(s, s')
    ensures TimesInv(s')
  {
    assert forall i | 0 <= i < |s.given| :: s'.given[i] == s.given[i];
  }

  lemma NewSectionTimes(s: State, s': State)
    requires CloseInv(s) && TimesInv(s) && (CloseStep(s, s') || WriteChannel(s, s'))
    ensures TimesInv(s')
  {
    if s'.file != s.file {
      MessagesConcat(s.file, [s'.file[|s.file|]]);
      assert Messages([s'.file[|s.file|]]) == [];
      if PairsInv(s.file) {
        forall i | 0 <= i < |s'.file|
          ensures PairInv(s'.file, i)
        {
          assert i < |s.file| ==> PairInv(s.file, i);
        }
      }
    }
  }

  lemma QuietTimes(s: State, s': State)
    requires TimesInv(s) && (Swap(s, s') || FlusherMoves(s, s') || Clear(s, s') || WriteChunkFails(s, s'))
    ensures TimesInv(s')
  {
  }

  // ----- all steps, and runs -----

  ghost predicate Inv(s: State) {
    Ledger(s) && CloseInv(s) && HeaderInv(s) && CountsInv(s) && TimesInv(s)
  }

  lemma InitInv(s: State)
    requires Init(s)
    ensures Inv(s)
  {
    assert forall channel :: CountInv(s, channel);
  }

  lemma ClientInv(s: State, s': State)
    requires Inv(s) && (WriteMessage(s, s') || Swap(s, s'))
    ensures Inv(s')
  {
    ClientKeepsClose(s, s');
    QuietHeader(s, s');
    if WriteMessage(s, s') {
      WriteMessageLedger(s, s');
      WriteMessageCounts(s, s');
      WriteMessageTimes(s, s');
    } else {
      SwapLedger(s, s');
      SameCounts(s, s');
      QuietTimes(s, s');
    }
  }

  lemma WriteChannelInv(s: State, s': State)
    requires Inv(s) && WriteChannel(s, s')
    ensures Inv(s')
  {
    ClientKeepsClose(s, s');
    WriteChannelHeader(s, s');
    WriteChannelLedger(s, s');
    SameCounts(s, s');
    NewSectionTimes(s, s');
  }

  lemma CloseStepInv(s: State, s': State)
    requires Inv(s) && CloseStep(s, s')
    ensures Inv(s')
  {
    CloseStepKeepsClose(s, s');
    CloseStepHeader(s, s');
    CloseStepLedger(s, s');
    SameCounts(s, s');
    NewSectionTimes(s, s');
  }

  lemma WriteChunkInv(s: State, s': State)
    requires Inv(s) && (WriteChunk(s, s') || WriteChunkFails(s, s'))
    ensures Inv(s')
  {
    FlusherKeepsClose(s, s');
    SameCounts(s, s');
    if WriteChunk(s, s') {
      WriteChunkHeader(s, s');
      WriteChunkLedger(s, s');
      WriteChunkTimes(s, s');
    } else {
      WriteChunkFailsHeader(s, s');
      WriteChunkFailsLedger(s, s');
      QuietTimes(s, s');
    }
  }

  lemma FlusherInv(s: State, s': State)
    requires Inv(s) && (FlusherMoves(s, s') || Clear(s, s'))
    ensures Inv(s')
  {
    FlusherKeepsClose(s, s');
    QuietHeader(s, s');
    SameCounts(s, s');
    QuietTimes(s, s');
    if FlusherMoves(s, s') {
      FlusherMovesLedger(s, s');
    } else {
      ClearLedger(s, s');
    }
  }

  lemma NextInv(s: State, s': State)
    requires Inv(s) && Next(s, s')
    ensures Inv(s')
  {
    if WriteMessage(s, s') || Swap(s, s') {
      ClientInv(s, s');
    } else if WriteChannel(s, s') {
      WriteChannelInv(s, s');
    } else if CloseStep(s, s') {
      CloseStepInv(s, s');
    } else if WriteChunk(s, s') || WriteChunkFails(s, s') {
      WriteChunkInv(s, s');
    } else {
      FlusherInv(s, s');
    }
  }

  ghost predicate IsRun(run: seq<State>) {
    && run != [] && Init(run[0])
    && (forall i {:trigger Next(run[i - 1], run[i])} | 0 < i < |run| :: Next(run[i - 1], run[i]))
  }

  lemma RunStepInv(run: seq<State>, i: nat)
    requires IsRun(run) && 0 < i < |run| && Inv(run[i - 1])
    ensures Inv(run[i])
  {
    NextInv(run[i - 1], run[i]);
  }

  lemma {:induction false} RunInv(run: seq<State>, i: nat)
    requires IsRun(run) && i < |run|
    ensures Inv(run[i])
  {
    if i == 0 {
      InitInv(run[0]);
    } else {
      RunInv(run, i - 1);
      RunStepInv(run, i);
    }
  }

  // ----- what a closed file holds -----

  /** Whatever the timing of swaps and flushes: after Close each message given is in the file or
      in a chunk whose writing failed, and in the file all are if and only if no chunk was lost. */
  lemma ClosedFileHolds(run: seq<State>, i: nat)
    requires IsRun(run) && i < |run| && run[i].client.Closed?
    ensures multiset(Messages(run[i].file)) + multiset(run[i].lost) == multiset(run[i].given)
    ensures multiset(Messages(run[i].file)) == multiset(run[i].given) <==> run[i].lost == []
  {
    RunInv(run, i);
    assert run[i].active.messages == [] && InFlush(run[i]) == [];
    assert |multiset(run[i].lost)| == |run[i].lost|;
  }

  /** The header section counts the messages and the chunks. */
  lemma ClosedFileCounts(run: seq<State>, i: nat)
    requires IsRun(run) && i < |run| && run[i].client.Closed? && !run[i].failed
    ensures run[i].onFile.complete && run[i].onFile.messageNumber == |run[i].given|
    ensures run[i].onFile.chunkNumber == Bodies(run[i].file)
  {
    RunInv(run, i);
    ClosedFileHolds(run, i);
    assert |multiset(Messages(run[i].file))| == |multiset(run[i].given)|;
  }

  /** GetMessageNumber of the writer. */
  lemma MessageNumberIsRight(run: seq<State>, i: nat, channel: string)
    requires IsRun(run) && i < |run|
    ensures Count(run[i], channel) == CountOn(run[i].given, channel)
  {
    RunInv(run, i);
    assert CountInv(run[i], channel);
  }

  /** If moreover no swap overtook the flush thread, the file holds the messages in their order. */
  lemma ClosedFileKeepsOrder(run: seq<State>, i: nat)
    requires IsRun(run) && i < |run| && run[i].client.Closed? && !run[i].failed && !run[i].overtaken
    ensures Messages(run[i].file) == run[i].given
  {
    RunInv(run, i);
    assert run[i].active.messages == [] && InFlush(run[i]) == [];
  }

  lemma PairsAreAccurate(file: seq<Section>)
    requires PairsInv(file)
    ensures Accurate(file)
  {
    forall i | 0 <= i < |file|
      ensures HeaderIsAccurate(file, i)
    {
      assert PairInv(file, i);
      if file[i].ChunkHeader? {
        assert file[i + 1..][0] == file[i + 1];
      }
    }
  }

  /** Then the file is as RecordReader needs it, when the messages came with ascending nonzero times. */
  lemma ClosedFileIsAccurate(run: seq<State>, i: nat)
    requires IsRun(run) && i < |run| && run[i].client.Closed? && !run[i].failed && !run[i].overtaken
    requires Positive(run[i].given) && Sorted(run[i].given)
    ensures Accurate(run[i].file)
    ensures Within(Messages(run[i].file), run[i].onFile.begin, run[i].onFile.end)
  {
    RunInv(run, i);
    PairsAreAccurate(run[i].file);
  }

  // ----- the limits of a chunk -----

  /** Between two calls of WriteMessage the active chunk is within the configured limits. */
  ghost predicate WithinLimits(s: State) {
    s.client.Ready? && !s.overtaken ==>
      && (s.header.chunkRawSize > 0 ==> s.active.rawSize <= s.header.chunkRawSize)
      && (s.header.chunkInterval > 0 && s.active.messages != [] ==>
            s.active.messages[|s.active.messages| - 1].time - s.active.begin <= s.header.chunkInterval)
  }

  lemma ClientWithinLimits(s: State, s': State)
    requires ChunksInv(s) && WithinLimits(s) && (WriteMessage(s, s') || Swap(s, s'))
    ensures WithinLimits(s')
  {
  }

  /** No other step touches the active chunk. */
  lemma OthersWithinLimits(s: State, s': State)
    requires WithinLimits(s) && s'.active == s.active && s'.overtaken == s.overtaken
    requires s'.header.chunkRawSize == s.header.chunkRawSize && s'.header.chunkInterval == s.header.chunkInterval
    requires s'.client.Ready? ==> s.client.Ready?
    ensures WithinLimits(s')
  {
  }

  lemma CloseWithinLimits(s: State, s': State)
    requires WithinLimits(s) && (WriteChannel(s, s') || CloseStep(s, s'))
    ensures WithinLimits(s')
  {
    OthersWithinLimits(s, s');
  }

  lemma FlusherWithinLimits(s: State, s': State)
    requires WithinLimits(s)
    requires FlusherMoves(s, s') || WriteChunk(s, s') || WriteChunkFails(s, s') || Clear(s, s')
    ensures WithinLimits(s')
  {
    OthersWithinLimits(s, s');
  }

  /** As long as no swap overtakes, a chunk that exceeds a limit is handed over at once. */
  lemma {:induction false} ActiveChunkIsBounded(run: seq<State>, i: nat)
    requires IsRun(run) && i < |run|
    ensures WithinLimits(run[i])
  {
    if i > 0 {
      ActiveChunkIsBounded(run, i - 1);
      RunInv(run, i - 1);
      var s, s' := run[i - 1], run[i];
      assert Next(s, s');
      if WriteMessage(s, s') || Swap(s, s') {
        ClientWithinLimits(s, s');
      } else if WriteChannel(s, s') || CloseStep(s, s') {
        CloseWithinLimits(s, s');
      } else {
        FlusherWithinLimits(s, s');
      }
    }
  }

  /** Some message of the chunk is more than the interval older than the newest one. */
  ghost predicate SpansMore(messages: seq<Message>, interval: nat) {
    exists k :: 0 <= k < |messages| && messages[|messages| - 1].time - messages[k].time > interval
  }

  /** WriteMessage hands the active chunk over exactly when its messages span more than the
      configured interval or hold more bytes than the configured size. */
  lemma HandsOverIff(run: seq<State>, i: nat)
    requires IsRun(run) && i + 1 < |run| && WriteMessage(run[i], run[i + 1]) && Positive(run[i + 1].given)
    ensures var s := run[i + 1];
      s.client.WantsSwap? <==>
        || (s.header.chunkInterval > 0 && SpansMore(s.active.messages, s.header.chunkInterval))
        || (s.header.chunkRawSize > 0 && RawSize(s.active.messages) > s.header.chunkRawSize)
  {
    RunInv(run, i);
    var s := run[i + 1];
    WriteMessageLedger(run[i], s);
    AllPositive(s);
    var messages := s.active.messages;
    var k :| 0 <= k < |messages| && messages[k].time == s.active.begin;
  }

  // ----- what happens when a swap overtakes the flush thread -----

  lemma Extend(run: seq<State>, s: State) returns (run': seq<State>)
    requires IsRun(run) && Next(run[|run| - 1], s)
    ensures IsRun(run') && run'[|run'| - 1] == s
  {
    run' := run + [s];
  }

  /** Two messages are given, the second before the chunk of the first is written. */
  lemma OvertakingStart() returns (run: seq<State>)
    ensures IsRun(run)
    ensures var s := run[|run| - 1];
      && s.client == Ready && s.flusher == Top && s.isWriting && !s.failed && s.file == []
      && s.header.begin == 0 && s.header.chunkRawSize == 1
      && s.flush.begin == s.flush.end == 2 && s.active.begin == s.active.end == 1
      && s.flush.number == s.active.number == 1
      && |s.given| == 2 && s.given[0].time == 1 && s.given[1].time == 2
  {
    var header := Header(0, 1, 0, 0, 0, 0, 0, false);
    var m1, m2 := Message("channel", "xx", 1), Message("channel", "xx", 2);
    var s0 := State(EMPTY_CHUNK, EMPTY_CHUNK, header, map[], [], [], header, true, Ready, Top,
                    [], [], [], false, false);
    run := [s0];
    var s1 := s0.(active := Add(s0.active, m1), counts := Counted(s0.counts, m1.channel), given := s0.given + [m1],
                  client := WantsSwap);
    assert WriteMessage(s0, s1);
    run := Extend(run, s1);
    var s2 := s1.(active := s1.flush, flush := s1.active, client := Ready);
    assert Swap(s1, s2);
    run := Extend(run, s2);
    var s3 := s2.(active := Add(s2.active, m2), counts := Counted(s2.counts, m2.channel), given := s2.given + [m2],
                  client := WantsSwap);
    assert WriteMessage(s2, s3);
    run := Extend(run, s3);
    var s4 := s3.(active := s3.flush, flush := s3.active, overtaken := true, client := Ready);
    assert Swap(s3, s4);
    run := Extend(run, s4);
  }

  lemma WriteOnce(run: seq<State>) returns (run': seq<State>)
    requires IsRun(run) && run[|run| - 1].flusher == Writing
    ensures IsRun(run')
    ensures var s, s' := run[|run| - 1], run'[|run'| - 1];
      s' == s.(flusher := Top, flush := EMPTY_CHUNK, file := s'.file, index := s'.index, header := s'.header)
      && s'.header.end == s.flush.end && s'.header.begin == if s.header.begin == 0 then s.flush.begin else s.header.begin
  {
    var s := run[|run| - 1];
    var c := s.flush;
    var s1 := s.(flusher := Clearing, file := s.file + ChunkSections(c),
                 index := s.index + ChunkEntries(c),
                 header := s.header.(chunkNumber := s.header.chunkNumber + 1,
                                     begin := if s.header.begin == 0 then c.begin else s.header.begin,
                                     end := c.end, messageNumber := s.header.messageNumber + c.number));
    assert WriteChunk(s, s1);
    run' := Extend(run, s1);
    var s2 := s1.(flush := EMPTY_CHUNK, flusher := Top);
    assert Clear(s1, s2);
    run' := Extend(run', s2);
  }

  ghost predicate Idles(s: State) {
    s.flusher == Top || s.flusher == Waiting
  }

  /** The flush thread writes its chunk. */
  lemma FlushOnce(run: seq<State>) returns (run': seq<State>)
    requires IsRun(run)
    requires var s := run[|run| - 1]; Idles(s) && s.isWriting && s.flush.number != 0
    ensures IsRun(run')
    ensures var s, s' := run[|run| - 1], run'[|run'| - 1];
      s' == s.(flusher := Top, flush := EMPTY_CHUNK, file := s'.file, index := s'.index, header := s'.header)
      && s'.header.end == s.flush.end && s'.header.begin == if s.header.begin == 0 then s.flush.begin else s.header.begin
  {
    var s := run[|run| - 1];
    var s1 := s.(flusher := Waiting);
    run' := run;
    if s.flusher == Top {
      assert FlusherMoves(s, s1);
      run' := Extend(run, s1);
    }
    var s2 := s1.(flusher := Writing);
    assert FlusherMoves(s1, s2);
    run' := Extend(run', s2);
    run' := WriteOnce(run');
  }

  /** Close, up to and with the last swap. */
  lemma CloseBegins(run: seq<State>) returns (run': seq<State>)
    requires IsRun(run)
    requires var s := run[|run| - 1]; s.client == Ready && Idles(s) && s.flush.number == 0
    ensures IsRun(run')
    ensures var s, s' := run[|run| - 1], run'[|run'| - 1];
      s' == s.(active := s.flush, flush := s.active, client := WaitsForLastFlush)
  {
    var s := run[|run| - 1];
    var s1 := s.(client := WaitsForFlush);
    assert CloseStep(s, s1);
    run' := Extend(run, s1);
    var s2 := s1.(client := LastSwap);
    assert CloseStep(s1, s2);
    run' := Extend(run', s2);
    var s3 := s2.(active := s2.flush, flush := s2.active, client := WaitsForLastFlush);
    assert Swap(s2, s3);
    run' := Extend(run', s3);
  }

  /** Close, once both chunks are written. */
  lemma CloseEmpty(run: seq<State>) returns (run': seq<State>)
    requires IsRun(run)
    requires var s := run[|run| - 1]; s.client == WaitsForLastFlush && Idles(s) && s.flush.number == 0
    ensures IsRun(run')
    ensures var s, s' := run[|run| - 1], run'[|run'| - 1];
      s'.client == Closed && s'.onFile == s.header.(complete := true) && s'.failed == s.failed && s'.given == s.given
  {
    var s1 := run[|run| - 1].(client := Stopping);
    assert CloseStep(run[|run| - 1], s1);
    run' := Extend(run, s1);
    var s2 := s1.(client := Joining, isWriting := false);
    assert CloseStep(s1, s2);
    run' := Extend(run', s2);
    var s3 := s2.(flusher := Ended);
    assert FlusherMoves(s2, s3);
    run' := Extend(run', s3);
    var s4 := s3.(client := WritingIndex);
    assert CloseStep(s3, s4);
    run' := Extend(run', s4);
    var index := FilledIn(s4.index, s4.counts);
    var s5 := s4.(client := WritingHeader, index := index, file := s4.file + [Index(index)]);
    assert CloseStep(s4, s5);
    run' := Extend(run', s5);
    var header := s5.header.(complete := true);
    var s6 := s5.(client := Closed, header := header, onFile := header);
    assert CloseStep(s5, s6);
    run' := Extend(run', s6);
  }

  /** The flush thread does what it has to do, and waits. */
  lemma Settle(run: seq<State>) returns (run': seq<State>)
    requires IsRun(run) && run[|run| - 1].client == Ready
    ensures IsRun(run')
    ensures var s, s' := run[|run| - 1], run'[|run'| - 1];
      && s'.client == Ready && Idles(s') && s'.isWriting && s'.flush.number == 0
      && s'.given == s.given && s'.failed == s.failed
  {
    RunInv(run, |run| - 1);
    var s := run[|run| - 1];
    if s.flusher == Clearing {
      var s1 := s.(flush := EMPTY_CHUNK, flusher := Top);
      assert Clear(s, s1);
      run' := Extend(run, s1);
    } else if s.flusher == Writing {
      run' := WriteOnce(run);
    } else if s.flush.number != 0 {
      run' := FlushOnce(run);
    } else {
      run' := run;
    }
  }

  /** Close always can come to its end: from any reachable state between two calls of WriteMessage,
      and without any further failure. */
  lemma CloseCanEnd(run: seq<State>) returns (run': seq<State>)
    requires IsRun(run) && run[|run| - 1].client == Ready
    ensures IsRun(run')
    ensures var s, s' := run[|run| - 1], run'[|run'| - 1];
      s'.client.Closed? && s'.given == s.given && s'.failed == s.failed
  {
    run' := Settle(run);
    run' := CloseBegins(run');
    if run'[|run'| - 1].flush.number != 0 {
      run' := FlushOnce(run');
    }
    run' := CloseEmpty(run');
  }

  /** ClosedFileIsAccurate needs that no swap overtakes: here two messages with ascending times are
      given, all writes succeed, and yet the closed file's header begins after it ends, so that no
      message lies within it. */
  lemma OvertakingSpoilsTheHeader() returns (run: seq<State>)
    ensures IsRun(run)
    ensures var s := run[|run| - 1];
      && s.client.Closed? && !s.failed && |s.given| == 2 && s.given[0].time == 1 && s.given[1].time == 2
      && s.onFile.begin > s.onFile.end
  {
    run := OvertakingStart();
    run := FlushOnce(run);
    run := CloseBegins(run);
    run := FlushOnce(run);
    run := CloseEmpty(run);
  }
}
