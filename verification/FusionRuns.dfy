/** AllLatest when the secondary channels are filled while the fusion callback runs.

    A Fill of the primary channel holds that channel's mutex, so that one callback runs at a time,
    but each of its three Latest calls takes the mutex of its own secondary channel: other threads
    may fill the secondary channels between the calls. */
module FusionRuns {
  import opened DataChannel
  import opened Options

  type Value(!new)

  /** What a Latest call has found, and how many messages had arrived on the secondary channels. */
  datatype Look = Look(at: nat, value: Value)

  /** The callback for a primary message began after `begin` such arrivals; looks[c] is its call on
      channel c + 1. */
  datatype Callback = Outside | Looking(m0: Value, begin: nat, looks: seq<Look>)

  /** `number` tells which of the primary messages it was made for. */
  datatype Tuple = Tuple(m0: Value, number: nat, begin: nat, looks: seq<Look>)

  /** `arrivals` are the Fills of the secondary channels, `primaries` those of the primary one, and
      `fused` those of the fusion buffer. */
  datatype State = State(
    arrivals: seq<Arrival<Value>>, primaries: seq<Value>, callback: Callback, fused: seq<Tuple>)

  // ----- the steps -----

  ghost predicate Init(s: State) {
    s == State([], [], Outside, [])
  }

  ghost predicate Arrive(s: State, s': State) {
    && s'.arrivals != []
    && var a := s'.arrivals[|s'.arrivals| - 1];
    && 1 <= a.channel <= 3 && s' == s.(arrivals := s.arrivals + [a])
  }

  ghost predicate BeginFill(s: State, s': State) {
    && s.callback.Outside? && s'.callback.Looking?
    && s' == s.(callback := Looking(s'.callback.m0, |s.arrivals|, []), primaries := s.primaries + [s'.callback.m0])
  }

  /** The next Latest call; a channel without messages ends the callback. */
  ghost predicate LookNext(s: State, s': State) {
    && s.callback.Looking? && |s.callback.looks| < 3
    && var Looking(m0, begin, looks) := s.callback;
    match Last(History(s.arrivals, |looks| + 1))
    case None => s' == s.(callback := Outside)
    case Some(v) => s' == s.(callback := Looking(m0, begin, looks + [Look(|s.arrivals|, v)]))
  }

  ghost predicate FillFused(s: State, s': State) {
    && s.callback.Looking? && |s.callback.looks| == 3 && s.primaries != []
    && s' == s.(callback := Outside,
                fused := s.fused + [Tuple(s.callback.m0, |s.primaries| - 1, s.callback.begin, s.callback.looks)])
  }

  ghost predicate Next(s: State, s': State) {
    Arrive(s, s') || BeginFill(s, s') || LookNext(s, s') || FillFused(s, s')
  }

  ghost predicate IsRun(run: seq<State>) {
    && run != [] && Init(run[0])
    && (forall i {:trigger Next(run[i - 1], run[i])} | 0 < i < |run| :: Next(run[i - 1], run[i]))
  }

  // ----- the invariant -----

  /** The value was the newest of channel c + 1 after look.at arrivals. */
  ghost predicate LookInv(arrivals: seq<Arrival<Value>>, c: nat, look: Look) {
    look.at <= |arrivals| && Last(History(arrivals[..look.at], c + 1)) == Some(look.value)
  }

  ghost predicate LooksInv(arrivals: seq<Arrival<Value>>, begin: nat, looks: seq<Look>) {
    && begin <= |arrivals|
    && (forall c {:trigger looks[c]} | 0 <= c < |looks| :: begin <= looks[c].at && LookInv(arrivals, c, looks[c]))
    && (forall c, d {:trigger looks[c], looks[d]} | 0 <= c < d < |looks| :: looks[c].at <= looks[d].at)
  }

  ghost predicate TupleInv(arrivals: seq<Arrival<Value>>, t: Tuple) {
    |t.looks| == 3 && LooksInv(arrivals, t.begin, t.looks)
  }

  /** The tuples are made for primary messages in the order in which these came. */
  ghost predicate PrimariesInv(s: State) {
    && (forall k {:trigger s.fused[k]} | 0 <= k < |s.fused| ::
          ElementAt(s.primaries, s.fused[k].number) == Some(s.fused[k].m0)
          && (s.callback.Looking? ==> s.fused[k].number + 1 < |s.primaries|))
    && (forall k, l {:trigger s.fused[k], s.fused[l]} | 0 <= k < l < |s.fused| :: s.fused[k].number < s.fused[l].number)
    && (s.callback.Looking? ==> Last(s.primaries) == Some(s.callback.m0))
  }

  lemma {:induction false} RunPrimaries(run: seq<State>, i: nat)
    requires IsRun(run) && i < |run|
    ensures PrimariesInv(run[i])
  {
    if i > 0 {
      RunPrimaries(run, i - 1);
      assert Next(run[i - 1], run[i]);
    }
  }

  /** All calls of the callback come before the moment `begin`. */
  ghost predicate Before(t: Tuple, begin: nat) {
    |t.looks| == 3 && t.looks[2].at <= begin
  }

  ghost predicate Inv(s: State) {
    && (s.callback.Looking? ==> |s.callback.looks| <= 3 && LooksInv(s.arrivals, s.callback.begin, s.callback.looks))
    && (forall k {:trigger s.fused[k]} | 0 <= k < |s.fused| :: TupleInv(s.arrivals, s.fused[k]))
    && (forall k {:trigger s.fused[k]} | 0 <= k < |s.fused| && s.callback.Looking? ::
          Before(s.fused[k], s.callback.begin))
    && (forall k, l {:trigger s.fused[k], s.fused[l]} | 0 <= k < l < |s.fused| :: Before(s.fused[k], s.fused[l].begin))
  }

  lemma LooksStay(arrivals: seq<Arrival<Value>>, more: seq<Arrival<Value>>, begin: nat, looks: seq<Look>)
    requires LooksInv(arrivals, begin, looks)
    ensures LooksInv(arrivals + more, begin, looks)
  {
    forall c | 0 <= c < |looks|
      ensures LookInv(arrivals + more, c, looks[c])
    {
      assert LookInv(arrivals, c, looks[c]);
      assert (arrivals + more)[..looks[c].at] == arrivals[..looks[c].at];
    }
  }

  lemma ArriveInv(s: State, s': State)
    requires Inv(s) && Arrive(s, s')
    ensures Inv(s')
  {
    var a := s'.arrivals[|s'.arrivals| - 1];
    if s.callback.Looking? {
      LooksStay(s.arrivals, [a], s.callback.begin, s.callback.looks);
    }
    forall k | 0 <= k < |s.fused|
      ensures TupleInv(s'.arrivals, s.fused[k])
    {
      LooksStay(s.arrivals, [a], s.fused[k].begin, s.fused[k].looks);
    }
  }

  lemma LookNextInv(s: State, s': State)
    requires Inv(s) && LookNext(s, s')
    ensures Inv(s')
  {
    assert s.arrivals[..|s.arrivals|] == s.arrivals;
    if s'.callback.Looking? {
      var c := |s.callback.looks|;
      assert LookInv(s'.arrivals, c, s'.callback.looks[c]);
    }
  }

  lemma NextInv(s: State, s': State)
    requires Inv(s) && Next(s, s')
    ensures Inv(s')
  {
    if Arrive(s, s') {
      ArriveInv(s, s');
    } else if LookNext(s, s') {
      LookNextInv(s, s');
    }
  }

  lemma {:induction false} RunInv(run: seq<State>, i: nat)
    requires IsRun(run) && i < |run|
    ensures Inv(run[i])
  {
    if i > 0 {
      RunInv(run, i - 1);
      assert Next(run[i - 1], run[i]);
      NextInv(run[i - 1], run[i]);
    }
  }

  // ----- what is fused -----

  /** Each secondary message of a fused tuple was the newest of its channel at an instant between the
      beginning and the end of the primary Fill; the instants come in the order of the channels, and
      the Fills of different tuples do not overlap.  Its primary message is the one whose Fill made
      it, and the tuples follow the order of the primary messages. */
  lemma EachWasNewest(run: seq<State>, i: nat, k: nat)
    requires IsRun(run) && i < |run| && k < |run[i].fused|
    ensures var s := run[i];
      var Tuple(m0, number, begin, looks) := s.fused[k];
      && ElementAt(s.primaries, number) == Some(m0)
      && (k + 1 < |s.fused| ==> number < s.fused[k + 1].number)
      && |looks| == 3 && begin <= looks[0].at <= looks[1].at <= looks[2].at <= |s.arrivals|
      && (forall c: nat | c < 3 :: LatestBefore(s.arrivals, looks[c].at, c + 1, looks[c].value))
      && (k + 1 < |s.fused| ==> looks[2].at <= s.fused[k + 1].begin)
  {
    RunInv(run, i);
    var s := run[i];
    var t := s.fused[k];
    RunPrimaries(run, i);
    assert TupleInv(s.arrivals, t);
    assert LookInv(s.arrivals, 2, t.looks[2]);
    forall c: nat | c < 3
      ensures LatestBefore(s.arrivals, t.looks[c].at, c + 1, t.looks[c].value)
    {
      assert LookInv(s.arrivals, c, t.looks[c]);
      HistoryTells(s.arrivals, t.looks[c].at, c + 1);
    }
  }

  ghost function Values(t: Tuple): (Value, Value, Value, Value)
    requires |t.looks| == 3
  {
    (t.m0, t.looks[0].value, t.looks[1].value, t.looks[2].value)
  }

  /** Nothing arrived on the channel between two instants. */
  ghost predicate Quiet(arrivals: seq<Arrival<Value>>, channel: nat, i: nat, j: nat) {
    i <= j <= |arrivals| && forall k {:trigger arrivals[k]} | i <= k < j :: arrivals[k].channel != channel
  }

  lemma {:induction false} QuietHistory(arrivals: seq<Arrival<Value>>, channel: nat, i: nat, j: nat)
    requires Quiet(arrivals, channel, i, j)
    ensures History(arrivals[..j], channel) == History(arrivals[..i], channel)
  {
    if i < j {
      QuietHistory(arrivals, channel, i, j - 1);
      assert arrivals[..j][..j - 1] == arrivals[..j - 1];
    }
  }

  /** If the channels stay quiet after they were looked at, the tuple is what the callback would have
      fused at the single instant of its last look. */
  lemma QuietIsOneInstant(run: seq<State>, i: nat, k: nat)
    requires IsRun(run) && i < |run| && k < |run[i].fused|
    requires var s := run[i]; var looks := s.fused[k].looks;
      |looks| == 3 && Quiet(s.arrivals, 1, looks[0].at, looks[2].at) && Quiet(s.arrivals, 2, looks[1].at, looks[2].at)
    ensures var s := run[i]; var t := s.fused[k];
      FusedBy(s.arrivals[..t.looks[2].at], t.m0) == [Values(t)]
  {
    RunInv(run, i);
    var s := run[i];
    var looks := s.fused[k].looks;
    assert LookInv(s.arrivals, 0, looks[0]) && LookInv(s.arrivals, 1, looks[1]) && LookInv(s.arrivals, 2, looks[2]);
    QuietHistory(s.arrivals, 1, looks[0].at, looks[2].at);
    QuietHistory(s.arrivals, 2, looks[1].at, looks[2].at);
  }

  lemma {:induction false} HistoryStays(arrivals: seq<Arrival<Value>>, channel: nat, i: nat, j: nat)
    requires i <= j <= |arrivals| && History(arrivals[..i], channel) != []
    ensures History(arrivals[..j], channel) != []
  {
    if i < j {
      HistoryStays(arrivals, channel, i, j - 1);
      assert arrivals[..j][..j - 1] == arrivals[..j - 1];
    }
  }

  /** A primary message is dropped only if some secondary channel had no message when its Fill
      began. */
  lemma DroppedOnlyIfMissing(run: seq<State>, i: nat)
    requires IsRun(run) && i + 1 < |run| && LookNext(run[i], run[i + 1]) && run[i + 1].callback.Outside?
    ensures run[i].callback.begin <= |run[i].arrivals|
    ensures FusedBy(run[i].arrivals[..run[i].callback.begin], run[i].callback.m0) == []
  {
    RunInv(run, i);
    var s := run[i];
    var c := |s.callback.looks| + 1;
    assert s.arrivals[..|s.arrivals|] == s.arrivals;
    assert History(s.arrivals, c) == [];
    if History(s.arrivals[..s.callback.begin], c) != [] {
      HistoryStays(s.arrivals, c, s.callback.begin, |s.arrivals|);
    }
  }

  // ----- a tuple of no single instant -----

  lemma OneMore(run: seq<State>, s: State) returns (run': seq<State>)
    requires IsRun(run) && Next(run[|run| - 1], s)
    ensures IsRun(run') && run'[|run'| - 1] == s
  {
    run' := run + [s];
  }

  lemma ArriveOn(run: seq<State>, channel: nat, v: Value) returns (run': seq<State>)
    requires IsRun(run) && 1 <= channel <= 3
    ensures IsRun(run')
    ensures var s := run[|run| - 1]; run'[|run'| - 1] == s.(arrivals := s.arrivals + [Arrival(channel, v)])
  {
    var s := run[|run| - 1];
    var s' := s.(arrivals := s.arrivals + [Arrival(channel, v)]);
    assert Arrive(s, s');
    run' := OneMore(run, s');
  }

  lemma LookOnce(run: seq<State>, v: Value) returns (run': seq<State>)
    requires IsRun(run)
    requires var s := run[|run| - 1];
      s.callback.Looking? && |s.callback.looks| < 3 && Last(History(s.arrivals, |s.callback.looks| + 1)) == Some(v)
    ensures IsRun(run')
    ensures var s := run[|run| - 1]; var looks := s.callback.looks;
      run'[|run'| - 1] == s.(callback := s.callback.(looks := looks + [Look(|s.arrivals|, v)]))
  {
    var s := run[|run| - 1];
    var s' := s.(callback := s.callback.(looks := s.callback.looks + [Look(|s.arrivals|, v)]));
    assert LookNext(s, s');
    run' := OneMore(run, s');
  }

  /** The arrivals of the run below: one message on each channel, then one on channel 1 and on 2. */
  ghost function FiveArrivals(x1: Value, x2: Value, x3: Value, y1: Value, y2: Value): seq<Arrival<Value>> {
    [Arrival(1, x1), Arrival(2, x2), Arrival(3, x3), Arrival(1, y1), Arrival(2, y2)]
  }

  lemma FiveHistories(x1: Value, x2: Value, x3: Value, y1: Value, y2: Value, n: nat)
    requires n <= 5
    ensures var a := FiveArrivals(x1, x2, x3, y1, y2)[..n];
      && History(a, 1) == (if n == 0 then [] else if n < 4 then [x1] else [x1, y1])
      && History(a, 2) == (if n < 2 then [] else if n < 5 then [x2] else [x2, y2])
      && History(a, 3) == (if n < 3 then [] else [x3])
  {
    var a := FiveArrivals(x1, x2, x3, y1, y2);
    if n > 0 {
      FiveHistories(x1, x2, x3, y1, y2, n - 1);
      assert a[..n][..n - 1] == a[..n - 1];
      assert a[..n][n - 1] == a[n - 1];
    }
  }

  lemma NoInstant(m0: Value, x1: Value, x2: Value, x3: Value, y1: Value, y2: Value, n: nat)
    requires x1 != y1 && x2 != y2 && n <= 5
    ensures FusedBy(FiveArrivals(x1, x2, x3, y1, y2)[..n], m0) != [(m0, x1, y2, x3)]
  {
    FiveHistories(x1, x2, x3, y1, y2, n);
  }

  lemma ThreeArrivals(x1: Value, x2: Value, x3: Value) returns (run: seq<State>)
    ensures IsRun(run)
    ensures run[|run| - 1] == State([Arrival(1, x1), Arrival(2, x2), Arrival(3, x3)], [], Outside, [])
  {
    run := [State([], [], Outside, [])];
    run := ArriveOn(run, 1, x1);
    run := ArriveOn(run, 2, x2);
    run := ArriveOn(run, 3, x3);
    assert run[|run| - 1].arrivals == [Arrival(1, x1), Arrival(2, x2), Arrival(3, x3)];
  }

  lemma BeginsAfterThree(m0: Value, x1: Value, x2: Value, x3: Value) returns (run: seq<State>)
    ensures IsRun(run)
    ensures run[|run| - 1] == State([Arrival(1, x1), Arrival(2, x2), Arrival(3, x3)], [m0], Looking(m0, 3, []), [])
  {
    run := ThreeArrivals(x1, x2, x3);
    var s := run[|run| - 1];
    var s' := s.(callback := Looking(m0, 3, []), primaries := [m0]);
    assert BeginFill(s, s');
    run := OneMore(run, s');
  }

  /** The callback has looked at channel 1 when a newer message arrives there. */
  lemma OvertakenLook(m0: Value, x1: Value, x2: Value, x3: Value, y1: Value) returns (run: seq<State>)
    ensures IsRun(run)
    ensures run[|run| - 1] == State(FiveArrivals(x1, x2, x3, y1, y1)[..4], [m0], Looking(m0, 3, [Look(3, x1)]), [])
  {
    var a := [Arrival(1, x1), Arrival(2, x2), Arrival(3, x3)];
    run := BeginsAfterThree(m0, x1, x2, x3);
    assert Last(History(a, 1)) == Some(x1) by {
      FiveHistories(x1, x2, x3, y1, y1, 3);
      assert FiveArrivals(x1, x2, x3, y1, y1)[..3] == a;
    }
    run := LookOnce(run, x1);
    assert [] + [Look(3, x1)] == [Look(3, x1)];
    run := ArriveOn(run, 1, y1);
    assert a + [Arrival(1, y1)] == FiveArrivals(x1, x2, x3, y1, y1)[..4];
  }

  /** Without that quiet a tuple may have been the newest set at no instant at all: here the callback
      gets the older message of channel 1 and the newer one of channel 2, which came after the
      newer one of channel 1. */
  lemma MixedTuple(m0: Value, x1: Value, x2: Value, x3: Value, y1: Value, y2: Value) returns (run: seq<State>)
    requires x1 != y1 && x2 != y2
    ensures IsRun(run)
    ensures var s := run[|run| - 1];
      && |s.fused| == 1 && |s.fused[0].looks| == 3
      && forall n: nat {:trigger s.arrivals[..n]} | n <= |s.arrivals| ::
           FusedBy(s.arrivals[..n], m0) != [Values(s.fused[0])]
  {
    var a := FiveArrivals(x1, x2, x3, y1, y2);
    run := OvertakenLook(m0, x1, x2, x3, y1);
    run := ArriveOn(run, 2, y2);
    var s7 := State(a, [m0], Looking(m0, 3, [Look(3, x1)]), []);
    assert FiveArrivals(x1, x2, x3, y1, y1)[..4] + [Arrival(2, y2)] == a;
    assert a[..5] == a;
    FiveHistories(x1, x2, x3, y1, y2, 5);
    run := LookOnce(run, y2);
    run := LookOnce(run, x3);
    var looks := [Look(3, x1), Look(5, y2), Look(5, x3)];
    var s9 := s7.(callback := Looking(m0, 3, looks));
    assert [Look(3, x1)] + [Look(5, y2)] + [Look(5, x3)] == looks;
    assert run[|run| - 1] == s9;
    var s10 := s9.(callback := Outside, fused := [Tuple(m0, 0, 3, looks)]);
    assert FillFused(s9, s10);
    run := OneMore(run, s10);
    forall n: nat | n <= 5
      ensures FusedBy(a[..n], m0) != [(m0, x1, y2, x3)]
    {
      NoInstant(m0, x1, x2, x3, y1, y2, n);
    }
  }
}
