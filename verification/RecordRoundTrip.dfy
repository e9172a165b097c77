/** Writing and viewing together: what RecordFileWriter leaves on the disk is what RecordViewer shows. */
module RecordRoundTrip {
  import opened RecordReaders
  import RecordFileIndex
  import RecordFileWriters
  import RecordViewers

  /** The given messages on the requested channels with times in the requested range, in their order. */
  function Selected(given: seq<Message>, begin: nat, end: nat, channels: set<string>): seq<Message> {
    RecordViewers.Chosen(RecordViewers.UpTo(From(given, begin), end), channels)
  }

  lemma {:induction false} UpToSorted(messages: seq<Message>, end: nat)
    requires Sorted(messages)
    ensures Sorted(RecordViewers.UpTo(messages, end))
    ensures forall begin: nat | RecordViewers.AllFrom(messages, begin) ::
              RecordViewers.AllFrom(RecordViewers.UpTo(messages, end), begin)
  {
    if messages != [] {
      UpToSorted(messages[1..], end);
      assert RecordViewers.AllFrom(messages[1..], messages[0].time);
    }
  }

  /** What is selected is known from the messages of each time. */
  lemma SelectedIs(given: seq<Message>, begin: nat, end: nat, channels: set<string>, out: seq<Message>)
    requires Sorted(given) && Sorted(out)
    requires forall time: nat {:trigger RecordViewers.AtTime(out, time)} ::
               RecordViewers.AtTime(out, time) ==
               if begin <= time <= end then RecordViewers.Chosen(RecordViewers.AtTime(given, time), channels) else []
    ensures out == Selected(given, begin, end, channels)
  {
    var inRange := RecordViewers.UpTo(From(given, begin), end);
    RecordViewers.FromSorted(given, begin);
    UpToSorted(From(given, begin), end);
    RecordViewers.ChosenSorted(inRange, channels);
    forall time: nat
      ensures RecordViewers.AtTime(out, time) == RecordViewers.AtTime(Selected(given, begin, end, channels), time)
    {
      RecordViewers.UpToAtTime(given, begin, end, time);
      RecordViewers.ChosenAtTime(inRange, channels, time);
    }
    RecordViewers.KnownByTimes(out, Selected(given, begin, end, channels));
  }

  /** Viewing one file. */
  method ViewFile(headerBegin: nat, headerEnd: nat, sections: seq<Section>, begin: nat, end: nat, channels: set<string>)
    returns (out: seq<Message>)
    requires Accurate(sections) && Within(Messages(sections), headerBegin, headerEnd)
    requires Sorted(Messages(sections))
    ensures out == Selected(Messages(sections), begin, end, channels)
  {
    var reader := new RecordReader(true, true, headerBegin, headerEnd, sections);
    assert RecordViewers.AllMessages([reader]) == reader.All() + [];
    out := RecordViewers.View([reader], begin, end, channels);
    assert RecordViewers.AllMessages([reader]) == Messages(sections);
    SelectedIs(Messages(sections), begin, end, channels, out);
  }

  /** What a closed file gives to a reader. */
  lemma ClosedFileIsReadable(run: seq<RecordFileWriters.State>, i: nat)
    requires RecordFileWriters.IsRun(run) && i < |run| && run[i].client.Closed?
    requires !run[i].failed && !run[i].overtaken
    requires RecordFileWriters.Positive(run[i].given) && Sorted(run[i].given)
    ensures Accurate(run[i].file) && Within(Messages(run[i].file), run[i].onFile.begin, run[i].onFile.end)
    ensures Messages(run[i].file) == run[i].given && Sorted(Messages(run[i].file))
  {
    RecordFileWriters.ClosedFileKeepsOrder(run, i);
    RecordFileWriters.ClosedFileIsAccurate(run, i);
  }

  /** A file closed after messages with ascending nonzero times, without a failed write and without
      a swap that overtook the flush thread, shows exactly the messages given on the requested
      channels with times in the requested range, in the order in which they were given. */
  method WriteThenView(ghost run: seq<RecordFileWriters.State>, ghost i: nat, file: RecordFileWriters.State,
                       begin: nat, end: nat, channels: set<string>)
    returns (out: seq<Message>)
    requires RecordFileWriters.IsRun(run) && i < |run| && file == run[i] && file.client.Closed?
    requires !file.failed && !file.overtaken
    requires RecordFileWriters.Positive(file.given) && Sorted(file.given)
    ensures out == Selected(file.given, begin, end, channels)
  {
    ClosedFileIsReadable(run, i);
    out := ViewFile(file.onFile.begin, file.onFile.end, file.file, begin, end, channels);
  }

  /** Opening a file that was closed without a failed write tells the channels written and how many
      messages were given on each. */
  method WriteThenAsk(ghost run: seq<RecordFileWriters.State>, ghost i: nat, file: RecordFileWriters.State)
    returns (reader: RecordReader)
    requires RecordFileWriters.IsRun(run) && i < |run| && file == run[i] && file.client.Closed? && !file.failed
    ensures reader.GetChannelList() == set name | name in file.channels
    ensures forall name | name in file.channels ::
              reader.GetMessageNumber(name) == RecordFileWriters.CountOn(file.given, name)
  {
    reader := new RecordReader(true, file.onFile.complete, file.onFile.begin, file.onFile.end, file.file);
    RecordFileIndex.IndexIsFound(run, i);
    forall name: string
      ensures name in reader.channelInfo <==> name in file.channels
      ensures name in reader.channelInfo ==>
                reader.channelInfo[name] == RecordFileWriters.CountOn(file.given, name)
    {
      RecordFileIndex.ReaderKnowsChannels(run, i, reader.channelInfo, name);
    }
  }
}
