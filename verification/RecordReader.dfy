/** RecordReader: reading the messages of one record file in a time range, skipping whole chunks
    by what their headers say.

    A file is a header and a sequence of sections.  The theorems are about files whose headers are
    accurate: no message lies outside the times that the file header and the header of its chunk
    give. */
module RecordReaders {
  import opened Options

  datatype Message = Message(channel: string, content: string, time: nat)

  /** An entry of the index, without its position. */
  datatype SingleIndex =
    | ChannelIndex(name: string, number: nat)
    | ChunkHeaderIndex(begin: nat, end: nat, number: nat, rawSize: nat)
    | ChunkBodyIndex(number: nat)

  datatype Section =
    | Channel(name: string)
    | ChunkHeader(begin: nat, end: nat, number: nat, rawSize: nat)
    | ChunkBody(messages: seq<Message>)
    | Index(entries: seq<SingleIndex>)

  // ----- what a file holds -----

  /** The messages of the chunk bodies in front of the index, in their order. */
  function Messages(sections: seq<Section>): seq<Message> {
    if sections == [] || sections[0].Index? then []
    else if sections[0].ChunkBody? then sections[0].messages + Messages(sections[1..])
    else Messages(sections[1..])
  }

  /** The next chunk body in front of the index. */
  function NextBody(sections: seq<Section>): Option<seq<Message>> {
    if sections == [] || sections[0].Index? then None
    else if sections[0].ChunkBody? then Some(sections[0].messages)
    else NextBody(sections[1..])
  }

  ghost predicate Within(messages: seq<Message>, begin: nat, end: nat) {
    forall i {:trigger messages[i]} | 0 <= i < |messages| :: begin <= messages[i].time <= end
  }

  /** The chunk header at i, if there is one there, bounds the chunk that follows it. */
  ghost predicate HeaderIsAccurate(sections: seq<Section>, i: nat)
    requires i < |sections|
  {
    sections[i].ChunkHeader? ==>
      var body := NextBody(sections[i + 1..]);
      body.Some? ==> body.value != [] && Within(body.value, sections[i].begin, sections[i].end)
  }

  ghost predicate Accurate(sections: seq<Section>) {
    forall i {:trigger HeaderIsAccurate(sections, i)} | 0 <= i < |sections| :: HeaderIsAccurate(sections, i)
  }

  /** The times never go back. */
  ghost predicate Sorted(messages: seq<Message>) {
    forall i, j {:trigger messages[i], messages[j]} | 0 <= i < j < |messages| :: messages[i].time <= messages[j].time
  }

  // ----- what the index tells -----

  /** The entries of the index, if the file has one. */
  function IndexOf(sections: seq<Section>): Option<seq<SingleIndex>> {
    if sections == [] then None
    else if sections[0].Index? then Some(sections[0].entries)
    else IndexOf(sections[1..])
  }

  /** Entry k is the first one for the channel. */
  ghost predicate FirstEntry(entries: seq<SingleIndex>, k: nat, name: string) {
    && k < |entries| && entries[k].ChannelIndex? && entries[k].name == name
    && forall j {:trigger entries[j]} | 0 <= j < k :: !(entries[j].ChannelIndex? && entries[j].name == name)
  }

  /** The map of channels holds the number of each channel's first entry, and no other channels. */
  ghost predicate IsChannelInfo(info: map<string, nat>, entries: seq<SingleIndex>) {
    && (forall k: nat, name {:trigger FirstEntry(entries, k, name)} | FirstEntry(entries, k, name) ::
          name in info && info[name] == entries[k].number)
    && (forall name {:trigger name in info} | name in info :: exists k: nat :: FirstEntry(entries, k, name))
  }

  lemma InfoGrows(info: map<string, nat>, entries: seq<SingleIndex>, entry: SingleIndex)
    requires IsChannelInfo(info, entries)
    ensures IsChannelInfo(if entry.ChannelIndex? && entry.name !in info then info[entry.name := entry.number] else info,
                          entries + [entry])
  {
    var n := |entries|;
    var more := entries + [entry];
    forall k: nat, name
      ensures k < n ==> (FirstEntry(more, k, name) <==> FirstEntry(entries, k, name))
    {
      assert forall j | 0 <= j < n :: more[j] == entries[j];
    }
    if entry.ChannelIndex? && entry.name !in info {
      forall j | 0 <= j < n && more[j].ChannelIndex?
        ensures more[j].name != entry.name
      {
        if more[j].name == entry.name {
          var k := FirstOf(entries, j, entry.name);
        }
      }
      assert FirstEntry(more, n, entry.name);
    } else if entry.ChannelIndex? {
      var k: nat :| FirstEntry(entries, k, entry.name);
      assert more[k] == entries[k];
    }
  }

  lemma {:induction false} FirstOf(entries: seq<SingleIndex>, j: nat, name: string) returns (k: nat)
    requires j < |entries| && entries[j].ChannelIndex? && entries[j].name == name
    ensures k <= j && FirstEntry(entries, k, name)
  {
    if i: nat :| i < j && entries[i].ChannelIndex? && entries[i].name == name {
      k := FirstOf(entries, i, name);
    } else {
      k := j;
    }
  }

  // ----- the messages from a time on -----

  function From(messages: seq<Message>, begin: nat): seq<Message> {
    if messages == [] then []
    else if messages[0].time >= begin then [messages[0]] + From(messages[1..], begin)
    else From(messages[1..], begin)
  }

  lemma {:induction false} FromConcat(a: seq<Message>, b: seq<Message>, begin: nat)
    ensures From(a + b, begin) == From(a, begin) + From(b, begin)
  {
    if a == [] {
      assert a + b == b;
    } else {
      assert (a + b)[1..] == a[1..] + b;
      FromConcat(a[1..], b, begin);
    }
  }

  lemma {:induction false} FromTooEarly(messages: seq<Message>, begin: nat, end: nat, from: nat)
    requires Within(messages, begin, end) && end < from
    ensures From(messages, from) == []
  {
    if messages != [] {
      FromTooEarly(messages[1..], begin, end, from);
    }
  }

  /** A body at the front of the stream is the front of its messages. */
  lemma {:induction false} NextBodyIsFirst(sections: seq<Section>)
    requires NextBody(sections).Some?
    ensures NextBody(sections).value <= Messages(sections)
  {
    if !sections[0].ChunkBody? {
      NextBodyIsFirst(sections[1..]);
    }
  }

  lemma {:induction false} NoBodyNoMessages(sections: seq<Section>)
    requires NextBody(sections) == None
    ensures Messages(sections) == []
  {
    if sections != [] && !sections[0].Index? {
      NoBodyNoMessages(sections[1..]);
    }
  }

  lemma {:induction false} FromIsLate(messages: seq<Message>, begin: nat)
    ensures forall m | m in From(messages, begin) :: m.time >= begin && m in messages
  {
    if messages != [] {
      FromIsLate(messages[1..], begin);
    }
  }

  /** The answer of one ReadMessage, given what was left from the begin time on: the first of these
      messages, unless it is after the end time. */
  ghost predicate Answers(left: seq<Message>, end: nat, result: Option<Message>, left': seq<Message>) {
    if left != [] && left[0].time <= end then result == Some(left[0]) && left' == left[1..]
    else result == None && left' == left
  }

  class RecordReader {
    const isValid: bool
    const headerBegin: nat
    const headerEnd: nat
    const sections: seq<Section>
    /** The message numbers of the channels, by the index. */
    const channelInfo: map<string, nat>

    var pos: nat
    var reachEnd: bool
    var chunk: seq<Message>
    var messageIndex: nat

    /** The headers are accurate. */
    ghost predicate AccurateFile() {
      Accurate(sections) && Within(Messages(sections), headerBegin, headerEnd)
    }

    /** All messages that can be read from this file. */
    ghost function All(): seq<Message> {
      if isValid then Messages(sections) else []
    }

    ghost function Stream(): seq<Message>
      requires pos <= |sections|
      reads this
    {
      if reachEnd then [] else Messages(sections[pos..])
    }

    ghost predicate Valid()
      reads this
    {
      && AccurateFile() && pos <= |sections| && messageIndex <= |chunk|
      && Within(Pending(), headerBegin, headerEnd)
    }

    /** The messages that no call has passed yet. */
    ghost function Pending(): seq<Message>
      requires pos <= |sections| && messageIndex <= |chunk|
      reads this
    {
      chunk[messageIndex..] + Stream()
    }

    /** What can still be read from a begin time on. */
    ghost function Left(begin: nat): seq<Message>
      requires Valid()
      reads this
    {
      if isValid then From(Pending(), begin) else []
    }

    constructor (isValid: bool, isComplete: bool, headerBegin: nat, headerEnd: nat, sections: seq<Section>)
      ensures this.isValid == isValid && this.headerBegin == headerBegin && this.headerEnd == headerEnd
      ensures this.sections == sections && pos == 0 && !reachEnd && chunk == [] && messageIndex == 0
      ensures Pending() == Messages(sections)
      ensures var index := IndexOf(sections);
        IsChannelInfo(channelInfo, if isValid && isComplete && index.Some? then index.value else [])
    {
      this.isValid := isValid;
      this.headerBegin := headerBegin;
      this.headerEnd := headerEnd;
      this.sections := sections;
      pos := 0;
      reachEnd := false;
      chunk := [];
      messageIndex := 0;
      var index := IndexOf(sections);
      var entries := if isValid && isComplete && index.Some? then index.value else [];
      var info: map<string, nat> := map[];
      for i := 0 to |entries|
        invariant IsChannelInfo(info, entries[..i])
      {
        InfoGrows(info, entries[..i], entries[i]);
        assert entries[..i + 1] == entries[..i] + [entries[i]];
        if entries[i].ChannelIndex? && entries[i].name !in info {
          info := info[entries[i].name := entries[i].number];
        }
      }
      assert entries[..|entries|] == entries;
      channelInfo := info;
      new;
      assert sections[0..] == sections;
    }

    function GetChannelList(): set<string> {
      channelInfo.Keys
    }

    function GetMessageNumber(channel: string): nat {
      if channel in channelInfo then channelInfo[channel] else 0
    }

    method Reset()
      requires AccurateFile()
      modifies this
      ensures Valid() && Pending() == Messages(sections)
      ensures forall begin: nat :: Left(begin) == From(All(), begin)
    {
      pos := 0;
      reachEnd := false;
      messageIndex := 0;
      chunk := [];
      assert sections[0..] == sections;
      assert Pending() == Messages(sections);
    }

    /** What follows the section at pos in the stream. */
    lemma StreamSteps()
      requires pos < |sections|
      ensures Messages(sections[pos..]) ==
        match sections[pos]
        case Index(_) => []
        case ChunkBody(messages) => messages + Messages(sections[pos + 1..])
        case _ => Messages(sections[pos + 1..])
      ensures sections[pos].Channel? || sections[pos].ChunkHeader? ==>
                NextBody(sections[pos + 1..]) == NextBody(sections[pos..])
      ensures sections[pos].ChunkBody? ==> NextBody(sections[pos..]) == Some(sections[pos].messages)
    {
      assert sections[pos..][1..] == sections[pos + 1..];
    }

    /** The chunk header in front of pos speaks about the next chunk body in the stream. */
    lemma HeaderHolds(first: nat, last: nat)
      requires Accurate(sections) && 0 < pos <= |sections| && sections[pos - 1].ChunkHeader?
      requires sections[pos - 1].begin == first && sections[pos - 1].end == last
      ensures Messages(sections[pos..]) != [] ==> Messages(sections[pos..])[0].time >= first
      ensures forall begin: nat :: last < begin && NextBody(sections[pos..]).Some? ==>
                From(NextBody(sections[pos..]).value, begin) == []
    {
      assert HeaderIsAccurate(sections, pos - 1);
      if NextBody(sections[pos..]).Some? {
        NextBodyIsFirst(sections[pos..]);
        forall begin: nat | last < begin
          ensures From(NextBody(sections[pos..]).value, begin) == []
        {
          FromTooEarly(NextBody(sections[pos..]).value, first, last, begin);
        }
      } else {
        NoBodyNoMessages(sections[pos..]);
      }
    }

    lemma RestWithin(messages: seq<Message>, rest: seq<Message>)
      requires Within(messages + rest, headerBegin, headerEnd)
      ensures Within(rest, headerBegin, headerEnd)
    {
      assert forall i | 0 <= i < |rest| :: rest[i] == (messages + rest)[|messages| + i];
    }

    /** Read on to the next chunk body, without the chunks that end before the begin time; stop
        at a chunk that begins after the end time. */
    method ReadNextChunk(begin: nat, end: nat) returns (ok: bool)
      requires Accurate(sections) && pos <= |sections| && Within(Stream(), headerBegin, headerEnd)
      modifies `pos, `reachEnd, `chunk
      ensures old(pos) <= pos <= |sections|
      ensures ok ==> pos > old(pos) && Within(chunk + Stream(), headerBegin, headerEnd)
                     && From(chunk + Stream(), begin) == From(old(Stream()), begin)
      ensures !ok ==> chunk == old(chunk) && Within(Stream(), headerBegin, headerEnd)
                      && From(Stream(), begin) == From(old(Stream()), begin)
                      && (Stream() == [] || Stream()[0].time > end)
    {
      var skip := false;
      while !reachEnd
        invariant old(pos) <= pos <= |sections| && chunk == old(chunk)
        invariant Within(Stream(), headerBegin, headerEnd) && From(Stream(), begin) == From(old(Stream()), begin)
        invariant skip && !reachEnd && NextBody(sections[pos..]).Some? ==>
                    From(NextBody(sections[pos..]).value, begin) == []
        decreases !reachEnd, |sections| - pos
      {
        if pos >= |sections| {
          return false;
        }
        StreamSteps();
        var section := sections[pos];
        pos := pos + 1;
        match section
        case Index(_) =>
          reachEnd := true;
        case Channel(_) =>
        case ChunkHeader(first, last, _, _) =>
          HeaderHolds(first, last);
          if last < begin {
            skip := true;
          }
          if first > end {
            return false;
          }
        case ChunkBody(messages) =>
          if skip {
            skip := false;
            FromConcat(messages, Stream(), begin);
            RestWithin(messages, Stream());
          } else {
            chunk := messages;
            return true;
          }
      }
      return false;
    }

    lemma PendingSteps()
      requires pos <= |sections| && messageIndex < |chunk|
      ensures Pending() != [] && Pending()[0] == chunk[messageIndex]
      ensures Pending()[1..] == chunk[messageIndex + 1..] + Stream()
    {
      assert chunk[messageIndex..] == [chunk[messageIndex]] + chunk[messageIndex + 1..];
    }

    /** The loop over the chunk in memory: it ends with the answer, or with the chunk passed. */
    method ReadFromChunk(begin: nat, end: nat) returns (answered: bool, result: Option<Message>)
      requires Valid() && isValid
      modifies `messageIndex
      ensures Valid()
      ensures answered ==> Answers(old(Left(begin)), end, result, Left(begin))
      ensures !answered ==> Left(begin) == old(Left(begin)) && messageIndex == |chunk|
    {
      while messageIndex < |chunk|
        invariant Valid() && Left(begin) == old(Left(begin))
      {
        var next := chunk[messageIndex];
        PendingSteps();
        if next.time > end {
          FirstIsLate(begin, end);
          return true, None;
        }
        messageIndex := messageIndex + 1;
        if next.time >= begin {
          return true, Some(next);
        }
      }
      return false, None;
    }

    /** The chunk is passed: read the next one and start at its first message. */
    method NextChunk(begin: nat, end: nat) returns (ok: bool)
      requires Valid() && isValid && messageIndex == |chunk|
      modifies `pos, `reachEnd, `chunk, `messageIndex
      ensures Valid() && Left(begin) == old(Left(begin))
      ensures ok ==> pos > old(pos)
      ensures !ok ==> pos >= old(pos) && (Left(begin) == [] || Left(begin)[0].time > end)
    {
      ghost var stream := Stream();
      assert Pending() == stream;
      ok := ReadNextChunk(begin, end);
      if ok {
        messageIndex := 0;
        assert Pending() == chunk + Stream();
      } else {
        assert Pending() == Stream();
      }
      if !ok {
        FirstIsLate(begin, end);
      }
    }

    /** The next message with a time in [begin, end], unless one after the end comes first. */
    method ReadMessage(begin: nat, end: nat) returns (result: Option<Message>)
      requires Valid()
      modifies `pos, `reachEnd, `chunk, `messageIndex
      ensures Valid() && Answers(old(Left(begin)), end, result, Left(begin))
      decreases |sections| - pos
    {
      if !isValid {
        return None;
      }
      if begin > headerEnd || end < headerBegin {
        OutOfRange(begin, end);
        return None;
      }
      var answered;
      answered, result := ReadFromChunk(begin, end);
      if !answered {
        var ok := NextChunk(begin, end);
        if ok {
          result := ReadMessage(begin, end);
        } else {
          result := None;
        }
      }
    }

    lemma FirstIsLate(begin: nat, end: nat)
      requires Valid() && isValid && (Pending() == [] || Pending()[0].time > end)
      ensures Left(begin) == [] || Left(begin)[0].time > end
    {
      FromIsLate(Pending(), begin);
    }

    lemma OutOfRange(begin: nat, end: nat)
      requires Valid() && isValid && (begin > headerEnd || end < headerBegin)
      ensures Left(begin) == [] || Left(begin)[0].time > end
    {
      FromIsLate(Pending(), begin);
    }
  }
}
