/** The index of a closed record file: one entry for each section, with the channels' message
    numbers, and what a reader finds out from it. */
module RecordFileIndex {
  import opened Options
  import opened RecordFileWriters
  import opened RecordReaders

  predicate IsFilledIn(s: State) {
    s.client.WritingHeader? || s.client.Closed?
  }

  /** The entry of a section, with the message number of a channel. */
  ghost predicate IsEntryOf(section: Section, entry: SingleIndex, number: nat) {
    match section
    case Channel(name) => entry == ChannelIndex(name, number)
    case ChunkHeader(begin, end, messages, rawSize) => entry == ChunkHeaderIndex(begin, end, messages, rawSize)
    case ChunkBody(messages) => entry == ChunkBodyIndex(|messages|)
    case Index(_) => false
  }

  ghost predicate EntryInv(s: State, k: nat)
    requires k < |s.index| <= |s.file|
  {
    var section := s.file[k];
    IsEntryOf(section, s.index[k], if section.Channel? && IsFilledIn(s) then Count(s, section.name) else 0)
  }

  function ChannelNames(sections: seq<Section>): seq<string> {
    if sections == [] then []
    else
      var n := |sections| - 1;
      ChannelNames(sections[..n]) + if sections[n].Channel? then [sections[n].name] else []
  }

  /** A chunk header counts the messages and the bytes of the body behind it. */
  ghost predicate SizeInv(file: seq<Section>, k: nat)
    requires k < |file|
  {
    file[k].ChunkHeader? ==>
      && k + 1 < |file| && file[k + 1].ChunkBody?
      && file[k].number == |file[k + 1].messages| && file[k].rawSize == RawSize(file[k + 1].messages)
  }

  ghost predicate SizesInv(file: seq<Section>) {
    forall k {:trigger SizeInv(file, k)} | 0 <= k < |file| :: SizeInv(file, k)
  }

  ghost predicate ListInv(s: State) {
    && |s.index| <= |s.file|
    && (forall k {:trigger EntryInv(s, k)} | 0 <= k < |s.index| :: EntryInv(s, k))
    && ChannelNames(s.file) == s.channels && s.header.channelNumber == |s.channels|
    && (!IsFilledIn(s) ==> |s.file| == |s.index|)
    && (IsFilledIn(s) && !s.failed ==> |s.file| == |s.index| + 1 && s.file[|s.index|] == Index(s.index))
    && (!s.failed ==> SizesInv(s.file))
  }

  // ----- every step keeps it -----

  /** A step that writes no section. */
  lemma QuietList(s: State, s': State)
    requires ListInv(s) && s'.file == s.file && s'.index == s.index && s'.channels == s.channels
    requires s'.header.channelNumber == s.header.channelNumber && (s.failed ==> s'.failed)
    requires IsFilledIn(s') <==> IsFilledIn(s)
    requires IsFilledIn(s) ==> s'.counts == s.counts
    ensures ListInv(s')
  {
    forall k | 0 <= k < |s'.index|
      ensures EntryInv(s', k)
    {
      assert EntryInv(s, k);
    }
  }

  /** A step that adds a section and its entry. */
  lemma OneSection(s: State, s': State, section: Section, entry: SingleIndex)
    requires ListInv(s) && !IsFilledIn(s) && !IsFilledIn(s')
    requires s'.file == s.file + [section] && s'.index == s.index + [entry] && IsEntryOf(section, entry, 0)
    requires s'.channels == s.channels + (if section.Channel? then [section.name] else [])
    requires s'.header.channelNumber == |s'.channels|
    requires s'.failed || (!s.failed && section.Channel?)
    ensures ListInv(s')
  {
    var n := |s.index|;
    assert s'.file[..n] == s.file;
    forall k | 0 <= k < |s'.index|
      ensures EntryInv(s', k)
    {
      assert k < n ==> EntryInv(s, k);
    }
    if !s'.failed {
      forall k | 0 <= k < |s'.file|
        ensures SizeInv(s'.file, k)
      {
        assert k < n ==> SizeInv(s.file, k);
      }
    }
  }

  lemma WriteChannelList(s: State, s': State)
    requires ListInv(s) && WriteChannel(s, s')
    ensures ListInv(s')
  {
    if s'.file == s.file {
      QuietList(s, s');
    } else {
      OneSection(s, s', s'.file[|s.file|], s'.index[|s.index|]);
    }
  }

  lemma WriteChunkList(s: State, s': State)
    requires ListInv(s) && ChunksInv(s) && CloseInv(s) && WriteChunk(s, s')
    ensures ListInv(s')
  {
    var n := |s.file|;
    var sections := ChunkSections(s.flush);
    assert s'.file[..n + 1][..n] == s.file && s'.file[..n + 1] == s'.file[..|s'.file| - 1];
    forall k | 0 <= k < |s'.index|
      ensures EntryInv(s', k)
    {
      assert k < n ==> EntryInv(s, k);
    }
    if !s'.failed {
      forall k | 0 <= k < |s'.file|
        ensures SizeInv(s'.file, k)
      {
        assert k < n ==> SizeInv(s.file, k);
      }
    }
  }

  lemma WriteChunkFailsList(s: State, s': State)
    requires ListInv(s) && CloseInv(s) && WriteChunkFails(s, s')
    ensures ListInv(s')
  {
    if s'.file == s.file {
      QuietList(s, s');
    } else {
      assert ChunkSections(s.flush)[..1] == [ChunkSections(s.flush)[0]];
      assert ChunkEntries(s.flush)[..1] == [ChunkEntries(s.flush)[0]];
      OneSection(s, s', ChunkSections(s.flush)[0], ChunkEntries(s.flush)[0]);
    }
  }

  /** The numbers of the channels are filled in, and the index is written. */
  lemma WriteIndexList(s: State, s': State)
    requires ListInv(s) && s.client.WritingIndex? && CloseStep(s, s')
    ensures ListInv(s')
  {
    var n := |s.index|;
    forall k | 0 <= k < n
      ensures EntryInv(s', k)
    {
      assert EntryInv(s, k);
    }
    if s'.file != s.file {
      assert s'.file[..n] == s.file;
      if !s'.failed {
        forall k | 0 <= k < |s'.file|
          ensures SizeInv(s'.file, k)
        {
          assert k < n ==> SizeInv(s.file, k);
        }
      }
    }
  }

  lemma CloseStepList(s: State, s': State)
    requires ListInv(s) && CloseStep(s, s')
    ensures ListInv(s')
  {
    if s.client.WritingIndex? {
      WriteIndexList(s, s');
    } else {
      QuietList(s, s');
    }
  }

  lemma OtherList(s: State, s': State)
    requires ListInv(s) && CloseInv(s)
    requires WriteMessage(s, s') || Swap(s, s') || FlusherMoves(s, s') || Clear(s, s')
    ensures ListInv(s')
  {
    QuietList(s, s');
  }

  lemma InitList(s: State)
    requires Init(s)
    ensures ListInv(s)
  {
  }

  lemma NextList(s: State, s': State)
    requires Inv(s) && ListInv(s) && Next(s, s')
    ensures ListInv(s')
  {
    if WriteChannel(s, s') {
      WriteChannelList(s, s');
    } else if CloseStep(s, s') {
      CloseStepList(s, s');
    } else if WriteChunk(s, s') {
      WriteChunkList(s, s');
    } else if WriteChunkFails(s, s') {
      WriteChunkFailsList(s, s');
    } else {
      OtherList(s, s');
    }
  }

  lemma RunStepList(run: seq<State>, i: nat)
    requires IsRun(run) && 0 < i < |run| && Inv(run[i - 1]) && ListInv(run[i - 1])
    ensures ListInv(run[i])
  {
    NextList(run[i - 1], run[i]);
  }

  lemma {:induction false} RunList(run: seq<State>, i: nat)
    requires IsRun(run) && i < |run|
    ensures ListInv(run[i])
  {
    if i == 0 {
      InitList(run[0]);
    } else {
      RunList(run, i - 1);
      RunInv(run, i - 1);
      RunStepList(run, i);
    }
  }

  // ----- the index of a closed file -----

  /** Without a failed write the last section of a closed file is an index with one entry for each
      section before it, in their order: channels with the number of messages given on them, chunk
      headers and bodies with what these sections say themselves.  The channel sections are those
      that WriteChannel has written, the header counts them, and each chunk header counts its chunk. */
  lemma ClosedFileIndex(run: seq<State>, i: nat)
    requires IsRun(run) && i < |run| && run[i].client.Closed? && !run[i].failed
    ensures var s := run[i]; var n := |s.file| - 1;
      && n >= 0 && s.file[n].Index? && |s.file[n].entries| == n
      && (forall k {:trigger s.file[k]} | 0 <= k < n ::
            IsEntryOf(s.file[k], s.file[n].entries[k],
                      if s.file[k].Channel? then CountOn(s.given, s.file[k].name) else 0))
      && ChannelNames(s.file) == s.channels && s.onFile.channelNumber == |s.channels|
      && SizesInv(s.file)
  {
    RunList(run, i);
    RunInv(run, i);
    var s := run[i];
    forall k | 0 <= k < |s.index|
      ensures IsEntryOf(s.file[k], s.index[k], if s.file[k].Channel? then CountOn(s.given, s.file[k].name) else 0)
    {
      assert EntryInv(s, k);
      if s.file[k].Channel? {
        assert CountInv(s, s.file[k].name);
      }
    }
  }

  // ----- what a reader of the closed file knows -----

  lemma {:induction false} NamesAreThere(sections: seq<Section>, name: string)
    ensures name in ChannelNames(sections) <==>
            exists k :: 0 <= k < |sections| && sections[k] == Channel(name)
  {
    if sections != [] {
      var n := |sections| - 1;
      NamesAreThere(sections[..n], name);
      if k :| 0 <= k < n && sections[k] == Channel(name) {
        assert sections[..n][k] == Channel(name);
      }
    }
  }

  lemma {:induction false} IndexIsLast(sections: seq<Section>)
    requires sections != [] && sections[|sections| - 1].Index? && NoIndex(sections[..|sections| - 1])
    ensures IndexOf(sections) == Some(sections[|sections| - 1].entries)
  {
    if |sections| > 1 {
      assert sections[..|sections| - 1][0] == sections[0];
      assert sections[1..][..|sections| - 2] == sections[..|sections| - 1][1..];
      IndexIsLast(sections[1..]);
    }
  }

  lemma IndexIsFound(run: seq<State>, i: nat)
    requires IsRun(run) && i < |run| && run[i].client.Closed? && !run[i].failed
    ensures run[i].onFile.complete && run[i].file != [] && run[i].file[|run[i].file| - 1].Index?
    ensures IndexOf(run[i].file) == Some(run[i].file[|run[i].file| - 1].entries)
  {
    var s := run[i];
    var n := |s.file| - 1;
    ClosedFileIndex(run, i);
    ClosedFileCounts(run, i);
    forall k | 0 <= k < n
      ensures !s.file[..n][k].Index?
    {
      assert s.file[..n][k] == s.file[k];
    }
    IndexIsLast(s.file);
  }

  /** The channels that a reader lists are those that WriteChannel has written, and each one's number
      is that of the messages given on it. */
  lemma ReaderKnowsChannels(run: seq<State>, i: nat, info: map<string, nat>, name: string)
    requires IsRun(run) && i < |run| && run[i].client.Closed? && !run[i].failed
    requires IndexOf(run[i].file).Some? && IsChannelInfo(info, IndexOf(run[i].file).value)
    ensures name in info <==> name in run[i].channels
    ensures name in info ==> info[name] == CountOn(run[i].given, name)
  {
    var s := run[i];
    var n := |s.file| - 1;
    ClosedFileIndex(run, i);
    IndexIsFound(run, i);
    NamesAreThere(s.file, name);
    var entries := s.file[n].entries;
    if name in info {
      var k: nat :| FirstEntry(entries, k, name);
      assert s.file[k] == Channel(name);
    }
    if k :| 0 <= k < |s.file| && s.file[k] == Channel(name) {
      assert entries[k] == ChannelIndex(name, CountOn(s.given, name));
      var first := FirstOf(entries, k, name);
    }
  }
}
