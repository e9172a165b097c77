/** The message cache of cyber/data: CacheBuffer, ChannelBuffer, DataVisitor and the AllLatest
    fusion.  Each buffer keeps a ghost history of everything ever filled in; the value filled
    k-th has position k, counting from 1.  The mutex of its buffer makes every method of one
    buffer an atomic step.  The fusion callback, with the mutexes of three secondary buffers one
    after the other, is a single step only as long as nobody fills these buffers meanwhile; module
    FusionRuns says what holds when somebody does. */
module DataChannel {
  import opened Options
  import opened RingIndex

  /** The oldest position that counts as cached after n fills into a buffer of the given size. */
  function FirstCached(n: nat, size: nat): nat {
    if n > size then n - size + 1 else 1
  }

  class CacheBuffer<T(0)> {
    const capacity: nat
    const buffer: array<T>
    var head: nat
    var tail: nat
    ghost var history: seq<T>

    constructor (size: nat)
      ensures Valid() && history == [] && capacity == size + 1 && fresh(buffer)
    {
      capacity := size + 1;
      buffer := new T[size + 1];
      head, tail := 0, 0;
      history := [];
    }

    /** The ring holds the last `capacity` values, each at its position modulo the capacity. */
    ghost predicate Valid()
      reads this, buffer
    {
      && capacity == buffer.Length >= 1
      && tail == |history| && head == FirstCached(tail, capacity - 1) - 1
      && forall pos {:trigger history[pos - 1]} ::
           tail - capacity < pos <= tail && pos >= 1 ==> buffer[pos % capacity] == history[pos - 1]
    }

    function Head(): nat
      reads this
    {
      head + 1
    }

    function Tail(): nat
      reads this
    {
      tail
    }

    function Size(): nat
      requires Valid()
      reads this, buffer
    {
      tail - head
    }

    predicate Empty()
      reads this
    {
      tail == 0
    }

    predicate Full()
      reads this
    {
      capacity - 1 == tail - head
    }

    /** at(pos): every position that counts as cached, and the newest one even when the size is
        zero, reads back the value of the pos-th Fill. */
    function At(pos: nat): (value: T)
      requires Valid()
      reads this, buffer
      ensures 1 <= pos <= tail && tail - capacity < pos ==> value == history[pos - 1]
    {
      buffer[pos % capacity]
    }

    /** Fill without a fusion callback. */
    method Fill(value: T)
      requires Valid()
      modifies this`head, this`tail, this`history, buffer
      ensures Valid() && history == old(history) + [value]
    {
      forall pos: nat | 1 <= pos <= tail && tail + 1 - capacity < pos
        ensures pos % capacity != (tail + 1) % capacity
      {
        SlotsDiffer(pos, tail + 1, capacity);
      }
      if Full() {
        SlotsMeet(head, capacity);
        buffer[head % capacity] := value;
        head := head + 1;
        tail := tail + 1;
      } else {
        buffer[(tail + 1) % capacity] := value;
        tail := tail + 1;
      }
      history := history + [value];
    }
  }

  // ----- reading with a cursor -----

  /** The position that a fetch with this cursor reads when n values were filled in; the
      cursor 0 belongs to a visitor that has not fetched yet. */
  function FetchPosition(cursor: nat, n: nat, size: nat): Option<nat> {
    if n == 0 then None
    else if cursor == 0 then Some(n)
    else if cursor == n + 1 then None
    else if cursor < FirstCached(n, size) then Some(n)
    else Some(cursor)
  }

  lemma NextCached<T>(history: seq<T>, from: nat, i: nat)
    requires from <= i < |history|
    ensures history[from..i + 1] == history[from..i] + [history[i]]
  {
  }

  class ChannelBuffer<T(0)> {
    const buffer: CacheBuffer<T>

    constructor (buffer: CacheBuffer<T>)
      ensures this.buffer == buffer
    {
      this.buffer := buffer;
    }

    /** Fetch through the cursor *index; the new cursor is the position that was read.  A cursor more
        than one past the newest value is not noticed: it reads whatever its slot holds. */
    method Fetch(index: nat) returns (m: Option<T>, index': nat)
      requires buffer.Valid()
      ensures var p := FetchPosition(index, |buffer.history|, buffer.capacity - 1);
        && (p.None? ==> m == None && index' == index)
        && (p.Some? ==> index' == p.value)
        && (index == 0 ==> m == Last(buffer.history))
        && (p.Some? && index <= |buffer.history| + 1 ==>
              1 <= p.value <= |buffer.history| && m == Some(buffer.history[p.value - 1]))
        && (p.Some? && index > |buffer.history| + 1 ==> m == Some(buffer.buffer[index % buffer.capacity]))
    {
      index' := index;
      if buffer.Empty() {
        return None, index';
      }
      if index == 0 {
        index' := buffer.Tail();
      } else if index == buffer.Tail() + 1 {
        return None, index';
      } else if index < buffer.Head() {
        index' := buffer.Tail();
      }
      m := Some(buffer.At(index'));
    }

    method Latest() returns (m: Option<T>)
      requires buffer.Valid()
      ensures m == Last(buffer.history)
    {
      if buffer.Empty() {
        return None;
      }
      m := Some(buffer.At(buffer.Tail()));
    }

    /** FetchMulti appends the newest values, oldest first: as many as asked for and cached. */
    method FetchMulti(fetchSize: nat, vec: seq<T>) returns (ok: bool, vec': seq<T>)
      requires buffer.Valid()
      ensures ok <==> buffer.history != []
      ensures !ok ==> vec' == vec
      ensures ok ==> var n := |buffer.history|;
        var cached := if n < buffer.capacity - 1 then n else buffer.capacity - 1;
        var num := if fetchSize < cached then fetchSize else cached;
        vec' == vec + buffer.history[n - num..]
    {
      vec' := vec;
      if buffer.Empty() {
        return false, vec';
      }
      var num := if buffer.Size() < fetchSize then buffer.Size() else fetchSize;
      var index := buffer.Tail() - num + 1;
      while index <= buffer.Tail()
        invariant buffer.tail - num + 1 <= index <= buffer.tail + 1
        invariant vec' == vec + buffer.history[buffer.tail - num..index - 1]
      {
        NextCached(buffer.history, buffer.tail - num, index - 1);
        var value := buffer.At(index);
        assert value == buffer.history[index - 1];
        vec' := vec' + [value];
        index := index + 1;
      }
      ok := true;
    }
  }

  class DataVisitor<T(0)> {
    const buffer: ChannelBuffer<T>
    var nextMsgIndex: nat

    constructor (queueSize: nat)
      ensures fresh(buffer) && fresh(buffer.buffer) && fresh(buffer.buffer.buffer)
      ensures buffer.buffer.Valid() && buffer.buffer.history == [] && buffer.buffer.capacity == queueSize + 1
      ensures nextMsgIndex == 0
    {
      var cache := new CacheBuffer<T>(queueSize);
      buffer := new ChannelBuffer<T>(cache);
      nextMsgIndex := 0;
    }

    /** TryFetch refines FetchStep below. */
    method TryFetch() returns (m: Option<T>)
      requires buffer.buffer.Valid() && nextMsgIndex <= |buffer.buffer.history| + 1
      modifies this`nextMsgIndex
      ensures var n := |buffer.buffer.history|;
        var before := VisitorState(n, old(nextMsgIndex), []);
        var after := VisitorStep(buffer.buffer.capacity - 1, before, FetchOp);
        && nextMsgIndex == after.cursor <= n + 1
        && (m.Some? <==> after.fetched != [])
        && (m.Some? ==> 1 <= after.fetched[0] <= n && m.value == buffer.buffer.history[after.fetched[0] - 1])
        && (old(nextMsgIndex) == 0 ==> m == Last(buffer.buffer.history))
    {
      var index;
      m, index := buffer.Fetch(nextMsgIndex);
      nextMsgIndex := index;
      if m.Some? {
        nextMsgIndex := nextMsgIndex + 1;
      }
    }
  }

  // ----- what a visitor sees over a whole run -----

  datatype VisitorOp = FillOp | FetchOp

  /** n values filled in, the visitor's cursor, and the positions it has fetched, oldest first. */
  datatype VisitorState = VisitorState(filled: nat, cursor: nat, fetched: seq<nat>)

  function VisitorStep(size: nat, s: VisitorState, op: VisitorOp): VisitorState {
    match op
    case FillOp => s.(filled := s.filled + 1)
    case FetchOp =>
      match FetchPosition(s.cursor, s.filled, size)
      case None => s
      case Some(p) => s.(cursor := p + 1, fetched := s.fetched + [p])
  }

  ghost function VisitorRun(size: nat, ops: seq<VisitorOp>): VisitorState {
    if ops == [] then VisitorState(0, 0, [])
    else VisitorStep(size, VisitorRun(size, ops[..|ops| - 1]), ops[|ops| - 1])
  }

  ghost predicate Increasing(s: seq<nat>) {
    forall i, j | 0 <= i < j < |s| :: s[i] < s[j]
  }

  /** However fills and fetches interleave, the fetched positions strictly increase, the cursor is
      one past the last of them and never more than one past the newest value. */
  lemma {:induction false} FetchesIncrease(size: nat, ops: seq<VisitorOp>)
    ensures var s := VisitorRun(size, ops);
      && s.filled == multiset(ops)[FillOp]
      && s.cursor <= s.filled + 1 && Increasing(s.fetched)
      && (forall i | 0 <= i < |s.fetched| :: 1 <= s.fetched[i] < s.cursor)
      && s.cursor == if s.fetched == [] then 0 else s.fetched[|s.fetched| - 1] + 1
  {
    if ops != [] {
      FetchesIncrease(size, ops[..|ops| - 1]);
      assert ops == ops[..|ops| - 1] + [ops[|ops| - 1]];
    }
  }

  /** The first successful fetch skips what is cached and returns the newest value. */
  lemma FirstFetchIsNewest(size: nat, ops: seq<VisitorOp>)
    ensures var s := VisitorRun(size, ops);
      s.fetched == [] && s.filled > 0 ==> VisitorStep(size, s, FetchOp).fetched == [s.filled]
  {
    FetchesIncrease(size, ops);
  }

  /** Every successful fetch after the first returns the next position, unless that position has
      left the cache; then, and only then, it returns the newest position instead. */
  lemma NextFetch(size: nat, ops: seq<VisitorOp>)
    ensures var s := VisitorRun(size, ops);
      var s' := VisitorStep(size, s, FetchOp);
      s.fetched != [] && s' != s ==>
        var p := s.fetched[|s.fetched| - 1];
        s'.fetched == s.fetched + [if p + 1 >= FirstCached(s.filled, size) then p + 1 else s.filled]
  {
    FetchesIncrease(size, ops);
  }

  /** A fetch fails exactly when nothing was filled in or everything filled in was passed. */
  lemma FetchFailsIff(size: nat, ops: seq<VisitorOp>)
    ensures var s := VisitorRun(size, ops);
      VisitorStep(size, s, FetchOp) == s <==> s.filled == 0 || s.cursor == s.filled + 1
  {
    FetchesIncrease(size, ops);
  }

  ghost predicate NeverBehind(size: nat, ops: seq<VisitorOp>) {
    forall k | 0 <= k <= |ops| ::
      var s := VisitorRun(size, ops[..k]);
      s.cursor == 0 || s.cursor >= FirstCached(s.filled, size)
  }

  /** A visitor that never falls behind the cache sees every value from its first one on. */
  lemma {:induction false} NothingSkipped(size: nat, ops: seq<VisitorOp>)
    requires NeverBehind(size, ops)
    ensures var f := VisitorRun(size, ops).fetched;
      forall i | 0 <= i < |f| :: f[i] == f[0] + i
  {
    if ops != [] {
      var before := ops[..|ops| - 1];
      assert forall k | 0 <= k <= |before| :: before[..k] == ops[..k];
      NothingSkipped(size, before);
      assert ops[..|before|] == before;
      NextFetch(size, before);
      FetchesIncrease(size, before);
    }
  }

  // ----- fusion -----

  /** One call of Fill on channel 0 (the primary one) to 3. */
  datatype Arrival<V> = Arrival(channel: nat, value: V)

  ghost function History<V>(arrivals: seq<Arrival<V>>, channel: nat): seq<V> {
    if arrivals == [] then []
    else History(arrivals[..|arrivals| - 1], channel)
         + if arrivals[|arrivals| - 1].channel == channel then [arrivals[|arrivals| - 1].value] else []
  }

  /** The fusion callback of channel 0: a primary value is fused only if every other channel
      already has a value, and then with the newest of each. */
  ghost function FusedBy<V>(arrivals: seq<Arrival<V>>, primary: V): seq<(V, V, V, V)> {
    match (Last(History(arrivals, 1)), Last(History(arrivals, 2)), Last(History(arrivals, 3)))
    case (Some(m1), Some(m2), Some(m3)) => [(primary, m1, m2, m3)]
    case _ => []
  }

  ghost function Fused<V>(arrivals: seq<Arrival<V>>): seq<(V, V, V, V)> {
    if arrivals == [] then []
    else
      var before := arrivals[..|arrivals| - 1];
      var a := arrivals[|arrivals| - 1];
      Fused(before) + if a.channel == 0 then FusedBy(before, a.value) else []
  }

  lemma ArrivalAppends<V>(arrivals: seq<Arrival<V>>, a: Arrival<V>)
    ensures forall c: nat ::
              History(arrivals + [a], c) == History(arrivals, c) + if a.channel == c then [a.value] else []
    ensures Fused(arrivals + [a]) == Fused(arrivals) + if a.channel == 0 then FusedBy(arrivals, a.value) else []
  {
    assert (arrivals + [a])[..|arrivals|] == arrivals;
  }

  class AllLatest<V(0)> {
    const buffer1: ChannelBuffer<V>
    const buffer2: ChannelBuffer<V>
    const buffer3: ChannelBuffer<V>
    const fusion: ChannelBuffer<(V, V, V, V)>
    ghost var arrivals: seq<Arrival<V>>

    /** No two caches share an object. */
    ghost predicate Separate() {
      && {buffer1.buffer as object, buffer1.buffer.buffer} !! {buffer2.buffer as object, buffer2.buffer.buffer}
      && {buffer1.buffer as object, buffer1.buffer.buffer} !! {buffer3.buffer as object, buffer3.buffer.buffer}
      && {buffer2.buffer as object, buffer2.buffer.buffer} !! {buffer3.buffer as object, buffer3.buffer.buffer}
      && {fusion.buffer as object, fusion.buffer.buffer}
         !! {buffer1.buffer as object, buffer1.buffer.buffer, buffer2.buffer, buffer2.buffer.buffer,
             buffer3.buffer, buffer3.buffer.buffer}
    }

    ghost predicate Valid()
      reads this, buffer1.buffer, buffer1.buffer.buffer, buffer2.buffer, buffer2.buffer.buffer
      reads buffer3.buffer, buffer3.buffer.buffer, fusion.buffer, fusion.buffer.buffer
    {
      && SecondariesValid() && fusion.buffer.Valid() && Separate()
      && fusion.buffer.history == Fused(arrivals)
    }

    /** Attaches to three secondary channels and a primary one whose cache has capacity0 slots. */
    constructor (capacity0: nat, buffer1: ChannelBuffer<V>, buffer2: ChannelBuffer<V>, buffer3: ChannelBuffer<V>)
      requires capacity0 >= 1
      requires buffer1.buffer.Valid() && buffer2.buffer.Valid() && buffer3.buffer.Valid()
      requires buffer1.buffer.history == buffer2.buffer.history == buffer3.buffer.history == []
      requires {buffer1.buffer as object, buffer1.buffer.buffer} !! {buffer2.buffer as object, buffer2.buffer.buffer}
      requires {buffer1.buffer as object, buffer1.buffer.buffer} !! {buffer3.buffer as object, buffer3.buffer.buffer}
      requires {buffer2.buffer as object, buffer2.buffer.buffer} !! {buffer3.buffer as object, buffer3.buffer.buffer}
      ensures Valid() && arrivals == [] && fusion.buffer.capacity == capacity0
    {
      var cache := new CacheBuffer<(V, V, V, V)>(capacity0 - 1);
      this.buffer1, this.buffer2, this.buffer3 := buffer1, buffer2, buffer3;
      fusion := new ChannelBuffer<(V, V, V, V)>(cache);
      arrivals := [];
    }

    ghost predicate SecondariesValid()
      reads this, buffer1.buffer, buffer1.buffer.buffer, buffer2.buffer, buffer2.buffer.buffer
      reads buffer3.buffer, buffer3.buffer.buffer
    {
      && buffer1.buffer.Valid() && buffer2.buffer.Valid() && buffer3.buffer.Valid()
      && buffer1.buffer.history == History(arrivals, 1)
      && buffer2.buffer.history == History(arrivals, 2)
      && buffer3.buffer.history == History(arrivals, 3)
    }

    /** The fusion callback of the primary channel. */
    method Fuse(m0: V)
      requires Valid()
      modifies fusion.buffer, fusion.buffer.buffer
      ensures SecondariesValid() && Separate() && fusion.buffer.Valid()
      ensures fusion.buffer.history == old(fusion.buffer.history) + FusedBy(arrivals, m0)
    {
      var fused := LatestWith(m0);
      if fused.Some? {
        fusion.buffer.Fill(fused.value);
      }
    }

    /** Fill on the primary channel runs the fusion callback. */
    method FillPrimary(m0: V)
      requires Valid()
      modifies this`arrivals, fusion.buffer, fusion.buffer.buffer
      ensures Valid() && arrivals == old(arrivals) + [Arrival(0, m0)]
    {
      ArrivalAppends(arrivals, Arrival(0, m0));
      Fuse(m0);
      arrivals := arrivals + [Arrival(0, m0)];
    }

    /** The three Latest calls of the callback; a channel without messages stops them. */
    method LatestWith(m0: V) returns (fused: Option<(V, V, V, V)>)
      requires Valid()
      ensures FusedBy(arrivals, m0) == if fused.Some? then [fused.value] else []
    {
      var m1 := buffer1.Latest();
      if m1.None? {
        return None;
      }
      var m2 := buffer2.Latest();
      if m2.None? {
        return None;
      }
      var m3 := buffer3.Latest();
      if m3.None? {
        return None;
      }
      fused := Some((m0, m1.value, m2.value, m3.value));
    }

    /** Fill on one of the secondary channels, which have no fusion callback. */
    method FillSecondary(channel: nat, m: V)
      requires Valid() && 1 <= channel <= 3
      modifies this`arrivals, buffer1.buffer, buffer1.buffer.buffer, buffer2.buffer, buffer2.buffer.buffer
      modifies buffer3.buffer, buffer3.buffer.buffer
      ensures Valid() && arrivals == old(arrivals) + [Arrival(channel, m)]
    {
      ArrivalAppends(arrivals, Arrival(channel, m));
      if channel == 1 {
        buffer1.buffer.Fill(m);
      } else if channel == 2 {
        buffer2.buffer.Fill(m);
      } else {
        buffer3.buffer.Fill(m);
      }
      arrivals := arrivals + [Arrival(channel, m)];
    }

    /** A fusing fetch returns the tuple at the fetched position of the fused history. */
    method Fusion(index: nat) returns (m: Option<(V, V, V, V)>, index': nat)
      requires Valid() && index <= |Fused(arrivals)| + 1
      ensures var p := FetchPosition(index, |Fused(arrivals)|, fusion.buffer.capacity - 1);
        && (p.None? ==> m == None && index' == index)
        && (p.Some? ==> index' == p.value && 1 <= p.value <= |Fused(arrivals)|
                        && m == Some(Fused(arrivals)[p.value - 1]))
    {
      m, index' := fusion.Fetch(index);
    }
  }

  // ----- what the fused history is, told without the callback -----

  /** v arrived on the channel before instant i, and nothing arrived there between. */
  ghost predicate LatestBefore<V>(arrivals: seq<Arrival<V>>, i: nat, channel: nat, v: V)
    requires i <= |arrivals|
  {
    exists j :: IsLatest(arrivals, i, channel, v, j)
  }

  ghost predicate IsLatest<V>(arrivals: seq<Arrival<V>>, i: nat, channel: nat, v: V, j: int)
    requires i <= |arrivals|
  {
    0 <= j < i && arrivals[j] == Arrival(channel, v) && forall k :: j < k < i ==> arrivals[k].channel != channel
  }

  lemma {:induction false} LastOfHistoryIsLatest<V>(arrivals: seq<Arrival<V>>, channel: nat)
    ensures var h := History(arrivals, channel);
      if h == [] then forall k :: 0 <= k < |arrivals| ==> arrivals[k].channel != channel
      else LatestBefore(arrivals, |arrivals|, channel, h[|h| - 1])
  {
    if arrivals != [] {
      var n := |arrivals| - 1;
      var before := arrivals[..n];
      LastOfHistoryIsLatest(before, channel);
      var h := History(before, channel);
      if arrivals[n].channel == channel {
        assert IsLatest(arrivals, n + 1, channel, arrivals[n].value, n);
      } else if h != [] {
        var j :| IsLatest(before, n, channel, h[|h| - 1], j);
        LatestExtends(arrivals, n, channel, h[|h| - 1], j);
      }
    }
  }

  lemma LatestExtends<V>(arrivals: seq<Arrival<V>>, n: nat, channel: nat, v: V, j: int)
    requires n + 1 == |arrivals| && IsLatest(arrivals[..n], n, channel, v, j) && arrivals[n].channel != channel
    ensures IsLatest(arrivals, n + 1, channel, v, j)
  {
    forall k | j < k < n + 1
      ensures arrivals[k].channel != channel
    {
      assert k < n ==> arrivals[..n][k] == arrivals[k];
    }
  }

  ghost predicate HasArrived<V>(arrivals: seq<Arrival<V>>, i: nat, channel: nat)
    requires i <= |arrivals|
  {
    exists j :: 0 <= j < i && arrivals[j].channel == channel
  }

  /** A primary message that arrives when every secondary channel has a message. */
  ghost predicate Fuses<V>(arrivals: seq<Arrival<V>>, i: nat) {
    && i < |arrivals| && arrivals[i].channel == 0
    && HasArrived(arrivals, i, 1) && HasArrived(arrivals, i, 2) && HasArrived(arrivals, i, 3)
  }

  /** The instants at which something is fused, in order. */
  ghost function Instants<V>(arrivals: seq<Arrival<V>>): seq<nat> {
    if arrivals == [] then []
    else Instants(arrivals[..|arrivals| - 1])
         + if Fuses(arrivals, |arrivals| - 1) then [|arrivals| - 1] else []
  }

  lemma {:induction false} InstantsAreTheFusingOnes<V>(arrivals: seq<Arrival<V>>)
    ensures Increasing(Instants(arrivals))
    ensures forall i: nat :: i in Instants(arrivals) <==> Fuses(arrivals, i)
  {
    if arrivals != [] {
      var n := |arrivals| - 1;
      var before := arrivals[..n];
      InstantsAreTheFusingOnes(before);
      forall i | 0 <= i < |Instants(before)|
        ensures Instants(before)[i] < n
      {
        assert Instants(before)[i] in Instants(before);
      }
      forall i: nat | i < n
        ensures Fuses(before, i) <==> Fuses(arrivals, i)
      {
        forall c: nat
          ensures HasArrived(before, i, c) <==> HasArrived(arrivals, i, c)
        {
          ArrivedPrefix(arrivals, n, i, c);
        }
      }
    }
  }

  lemma ArrivedPrefix<V>(arrivals: seq<Arrival<V>>, n: nat, i: nat, c: nat)
    requires i <= n <= |arrivals|
    ensures HasArrived(arrivals[..n], i, c) <==> HasArrived(arrivals, i, c)
  {
    if HasArrived(arrivals, i, c) {
      var j :| 0 <= j < i && arrivals[j].channel == c;
      assert arrivals[..n][j].channel == c;
    }
  }

  lemma LatestPrefix<V>(arrivals: seq<Arrival<V>>, n: nat, i: nat, c: nat, v: V)
    requires i <= n <= |arrivals| && LatestBefore(arrivals[..n], i, c, v)
    ensures LatestBefore(arrivals, i, c, v)
  {
    var j :| IsLatest(arrivals[..n], i, c, v, j);
    forall k | j < k < i
      ensures arrivals[k].channel != c
    {
      assert arrivals[k] == arrivals[..n][k];
    }
    assert IsLatest(arrivals, i, c, v, j);
  }

  /** What is told about the message tuple that is fused at instant i. */
  ghost predicate FusedAt<V>(arrivals: seq<Arrival<V>>, i: nat, fused: (V, V, V, V)) {
    && Fuses(arrivals, i) && fused.0 == arrivals[i].value
    && LatestBefore(arrivals, i, 1, fused.1) && LatestBefore(arrivals, i, 2, fused.2)
    && LatestBefore(arrivals, i, 3, fused.3)
  }

  lemma FusedAtPrefix<V>(arrivals: seq<Arrival<V>>, n: nat, i: nat, fused: (V, V, V, V))
    requires n <= |arrivals| && FusedAt(arrivals[..n], i, fused)
    ensures FusedAt(arrivals, i, fused)
  {
    LatestPrefix(arrivals, n, i, 1, fused.1);
    LatestPrefix(arrivals, n, i, 2, fused.2);
    LatestPrefix(arrivals, n, i, 3, fused.3);
    ArrivedPrefix(arrivals, n, i, 1);
    ArrivedPrefix(arrivals, n, i, 2);
    ArrivedPrefix(arrivals, n, i, 3);
  }

  /** A channel's history is empty until a message arrives on it, and ends with the newest one. */
  lemma HistoryTells<V>(arrivals: seq<Arrival<V>>, n: nat, c: nat)
    requires n <= |arrivals|
    ensures var h := History(arrivals[..n], c);
      && (h != [] <==> HasArrived(arrivals, n, c))
      && (h != [] ==> LatestBefore(arrivals, n, c, h[|h| - 1]))
  {
    var before := arrivals[..n];
    var h := History(before, c);
    LastOfHistoryIsLatest(before, c);
    if h != [] {
      var j :| IsLatest(before, n, c, h[|h| - 1], j);
      assert arrivals[j].channel == c;
      LatestPrefix(arrivals, n, n, c, h[|h| - 1]);
    } else {
      assert forall k | 0 <= k < n :: arrivals[k] == before[k];
    }
  }

  /** The callback of the last arrival fuses exactly when that is a fusing instant. */
  lemma LastIsFused<V>(arrivals: seq<Arrival<V>>)
    requires arrivals != []
    ensures var n := |arrivals| - 1; var before := Fused(arrivals[..n]);
      if Fuses(arrivals, n) then
        && |Fused(arrivals)| == |before| + 1 && before <= Fused(arrivals)
        && FusedAt(arrivals, n, Fused(arrivals)[|before|])
      else Fused(arrivals) == before
  {
    var n := |arrivals| - 1;
    HistoryTells(arrivals, n, 1);
    HistoryTells(arrivals, n, 2);
    HistoryTells(arrivals, n, 3);
  }

  /** Fused position k holds the primary message of the k-th fusing instant together with the
      newest message of each secondary channel at that instant. */
  lemma {:induction false} FusionAgreesWithHistory<V>(arrivals: seq<Arrival<V>>, k: nat)
    ensures |Fused(arrivals)| == |Instants(arrivals)|
    ensures k < |Fused(arrivals)| ==> FusedAt(arrivals, Instants(arrivals)[k], Fused(arrivals)[k])
  {
    if arrivals != [] {
      var n := |arrivals| - 1;
      FusionAgreesWithHistory(arrivals[..n], k);
      LastIsFused(arrivals);
      if k < |Fused(arrivals[..n])| {
        FusedAtPrefix(arrivals, n, Instants(arrivals[..n])[k], Fused(arrivals[..n])[k]);
      }
    }
  }
}
