/** The insert-only concurrent hash map of cyber/base/atomic_hash_map.h.

    A table of buckets; each bucket is a linked list with a sentinel head and ascending keys.  Any
    number of threads call Has, Get and Set.  One load of a `next` pointer, one access to a value
    pointer and one compare-and-swap are one step each; comparing the key just reached belongs to
    the load, since keys never change.  Freed value cells may be reused by the allocator, so a
    value compare-and-swap may succeed even when the value has changed in between. */
module AtomicHashMap {
  import opened Options

  /** The value type; nothing is assumed about it. */
  type Value(!new)

  datatype Op = Has | Get | Set(value: Value, entry: nat)

  /** Walking(op, key, prev): about to load prev->next, where prev is the bucket head or an entry
      with a smaller key. */
  datatype Pc =
    | Idle
    | Walking(op: Op, key: int, prev: nat)
    | LoadingValue(key: int, target: nat)
    | SettingNext(op: Op, key: int, prev: nat, after: Option<nat>)
    | Linking(op: Op, key: int, prev: nat, after: Option<nat>)
    | LoadingOld(op: Op, key: int, target: nat)
    | SwappingValue(op: Op, key: int, target: nat, version: nat)

  datatype Entry = Entry(key: int, value: Value, version: nat, next: Option<nat>)

  /** Entries are numbered in the order of their allocation; the first `size` ones are the bucket
      heads.  `version` counts the changes of an entry's value.  `linked` records the entries that
      some list was made to hold by a successful compare-and-swap, and the heads. */
  datatype State = State(size: nat, entries: seq<Entry>, threads: seq<Pc>, linked: set<nat>)

  datatype Event =
    | Internal
    | HasIs(key: int, found: bool)
    | GetIs(key: int, result: Option<Value>)
    | SetDone(key: int, value: Value)

  /** The index is key & (size - 1); for a power of two that is the remainder. */
  lemma MaskIsRemainder(key: bv64)
    ensures key & 127 == key % 128
  {
  }

  // ----- the steps -----

  ghost predicate Init(s: State) {
    && s.size >= 1 && |s.entries| == s.size
    && (forall b {:trigger s.entries[b]} | 0 <= b < s.size :: s.entries[b].next == None)
    && (forall t {:trigger s.threads[t]} | 0 <= t < |s.threads| :: s.threads[t] == Idle)
    && (forall b: nat {:trigger b in s.linked} :: b in s.linked <==> b < s.size)
  }

  ghost function Goto(s: State, t: nat, pc: Pc): State
    requires t < |s.threads|
  {
    s.(threads := s.threads[t := pc])
  }

  ghost function NextOf(s: State, entry: nat): Option<nat> {
    if entry < |s.entries| then s.entries[entry].next else None
  }

  ghost function KeyOf(s: State, entry: nat): int {
    if entry < |s.entries| then s.entries[entry].key else 0
  }

  /** A call of Has or Get starts at the head of its bucket. */
  ghost predicate StartRead(s: State, t: nat, e: Event, s': State)
    requires t < |s.threads| && s.size >= 1
  {
    && s.threads[t].Idle? && e == Internal && |s'.threads| == |s.threads|
    && s'.threads[t].Walking? && !s'.threads[t].op.Set?
    && s' == Goto(s, t, Walking(s'.threads[t].op, s'.threads[t].key, s'.threads[t].key % s.size))
  }

  /** A Set first allocates its entry. */
  ghost predicate StartSet(s: State, t: nat, e: Event, s': State)
    requires t < |s.threads| && s.size >= 1
  {
    && s.threads[t].Idle? && e == Internal && |s'.threads| == |s.threads|
    && s'.threads[t].Walking? && s'.threads[t].op.Set?
    && var key, value := s'.threads[t].key, s'.threads[t].op.value;
    s' == Goto(s, t, Walking(Set(value, |s.entries|), key, key % s.size))
          .(entries := s.entries + [Entry(key, value, 0, None)])
  }

  /** One round of the walk: load prev->next and look at the key found there. */
  ghost predicate Walk(s: State, t: nat, e: Event, s': State)
    requires t < |s.threads|
  {
    && s.threads[t].Walking?
    && var Walking(op, key, prev) := s.threads[t];
    match NextOf(s, prev)
    case Some(found) =>
      if KeyOf(s, found) < key then e == Internal && s' == Goto(s, t, Walking(op, key, found))
      else if KeyOf(s, found) == key then Found(s, t, op, key, found, e, s')
      else NotFound(s, t, op, key, prev, Some(found), e, s')
    case None => NotFound(s, t, op, key, prev, None, e, s')
  }

  ghost predicate Found(s: State, t: nat, op: Op, key: int, target: nat, e: Event, s': State)
    requires t < |s.threads|
  {
    match op
    case Has => e == HasIs(key, true) && s' == Goto(s, t, Idle)
    case Get => e == Internal && s' == Goto(s, t, LoadingValue(key, target))
    case Set(_, _) => e == Internal && s' == Goto(s, t, LoadingOld(op, key, target))
  }

  ghost predicate NotFound(s: State, t: nat, op: Op, key: int, prev: nat, after: Option<nat>, e: Event, s': State)
    requires t < |s.threads|
  {
    match op
    case Has => e == HasIs(key, false) && s' == Goto(s, t, Idle)
    case Get => e == GetIs(key, None) && s' == Goto(s, t, Idle)
    case Set(_, _) => e == Internal && s' == Goto(s, t, SettingNext(op, key, prev, after))
  }

  ghost predicate LoadValue(s: State, t: nat, e: Event, s': State)
    requires t < |s.threads|
  {
    && s.threads[t].LoadingValue?
    && var LoadingValue(key, target) := s.threads[t];
    && target < |s.entries|
    && e == GetIs(key, Some(s.entries[target].value)) && s' == Goto(s, t, Idle)
  }

  ghost predicate SetNext(s: State, t: nat, e: Event, s': State)
    requires t < |s.threads|
  {
    && s.threads[t].SettingNext? && s.threads[t].op.Set? && e == Internal
    && var SettingNext(op, key, prev, after) := s.threads[t];
    && op.entry < |s.entries|
    && s' == Goto(s, t, Linking(op, key, prev, after))
             .(entries := s.entries[op.entry := s.entries[op.entry].(next := after)])
  }

  ghost predicate Link(s: State, t: nat, e: Event, s': State)
    requires t < |s.threads|
  {
    && s.threads[t].Linking? && s.threads[t].op.Set?
    && var Linking(op, key, prev, after) := s.threads[t];
    && NextOf(s, prev) == after && prev < |s.entries|
    && e == SetDone(key, op.value)
    && s' == Goto(s, t, Idle).(entries := s.entries[prev := s.entries[prev].(next := Some(op.entry))],
                               linked := s.linked + {op.entry})
  }

  /** The compare-and-swap fails when the link has changed; the Set then starts its search again. */
  ghost predicate LinkFails(s: State, t: nat, e: Event, s': State)
    requires t < |s.threads| && s.size >= 1
  {
    && s.threads[t].Linking? && e == Internal
    && var Linking(op, key, prev, after) := s.threads[t];
    && NextOf(s, prev) != after
    && s' == Goto(s, t, Walking(op, key, key % s.size))
  }

  ghost predicate LoadOld(s: State, t: nat, e: Event, s': State)
    requires t < |s.threads|
  {
    && s.threads[t].LoadingOld? && e == Internal
    && var LoadingOld(op, key, target) := s.threads[t];
    && target < |s.entries|
    && s' == Goto(s, t, SwappingValue(op, key, target, s.entries[target].version))
  }

  /** The value is replaced; a reused value cell lets this happen at any version. */
  ghost predicate SwapValue(s: State, t: nat, e: Event, s': State)
    requires t < |s.threads|
  {
    && s.threads[t].SwappingValue? && s.threads[t].op.Set?
    && var SwappingValue(op, key, target, version) := s.threads[t];
    && target < |s.entries|
    && var entry := s.entries[target];
    && e == SetDone(key, op.value)
    && s' == Goto(s, t, Idle)
             .(entries := s.entries[target := entry.(value := op.value, version := entry.version + 1)])
  }

  ghost predicate SwapFails(s: State, t: nat, e: Event, s': State)
    requires t < |s.threads| && s.size >= 1
  {
    && s.threads[t].SwappingValue? && e == Internal
    && var SwappingValue(op, key, target, version) := s.threads[t];
    && target < |s.entries| && s.entries[target].version != version
    && s' == Goto(s, t, Walking(op, key, key % s.size))
  }

  ghost predicate Step(s: State, t: nat, e: Event, s': State) {
    && t < |s.threads| && s.size >= 1
    && (|| StartRead(s, t, e, s') || StartSet(s, t, e, s') || Walk(s, t, e, s') || LoadValue(s, t, e, s')
        || SetNext(s, t, e, s') || Link(s, t, e, s') || LinkFails(s, t, e, s')
        || LoadOld(s, t, e, s') || SwapValue(s, t, e, s') || SwapFails(s, t, e, s'))
  }

  // ----- the invariant -----

  ghost function BucketOf(s: State, entry: nat): int
    requires s.size >= 1
  {
    if entry < s.size then entry else KeyOf(s, entry) % s.size
  }

  /** An entry with this key belongs behind prev on a list; a head comes before every key. */
  ghost predicate Ahead(s: State, prev: nat, key: int)
    requires s.size >= 1
  {
    BucketOf(s, prev) == key % s.size && (prev < s.size || KeyOf(s, prev) < key)
  }

  ghost predicate Comes(s: State, prev: nat, entry: nat)
    requires s.size >= 1
  {
    entry >= s.size && Ahead(s, prev, KeyOf(s, entry))
  }

  /** The next pointer of a listed entry leads to the listed entry with the next larger key of
      its bucket, and is null when there is none. */
  ghost predicate NextInv(s: State, entry: nat)
    requires s.size >= 1
  {
    && entry < |s.entries|
    && var next := NextOf(s, entry);
    && (next.Some? ==> next.value in s.linked && Comes(s, entry, next.value))
    && (forall o {:trigger Comes(s, entry, o)} | o in s.linked && Comes(s, entry, o) ::
          next.Some? && (o == next.value || Comes(s, next.value, o)))
  }

  ghost predicate ListInv(s: State) {
    && 1 <= s.size <= |s.entries|
    && (forall b: nat {:trigger b in s.linked} | b < s.size :: b in s.linked)
    && (forall o {:trigger NextInv(s, o)} | o in s.linked :: NextInv(s, o))
    && (forall o, p {:trigger KeyOf(s, o), KeyOf(s, p)} |
          o in s.linked && p in s.linked && o >= s.size && p >= s.size && KeyOf(s, o) == KeyOf(s, p) :: o == p)
  }

  /** prev is listed, in front of where the key belongs. */
  ghost predicate Before(s: State, prev: nat, key: int) {
    s.size >= 1 && prev in s.linked && Ahead(s, prev, key)
  }

  /** target is the listed entry of this key. */
  ghost predicate Holds(s: State, target: nat, key: int) {
    target in s.linked && target >= s.size && KeyOf(s, target) == key
  }

  /** The entry that a Set has allocated and not linked. */
  ghost function Owned(pc: Pc): Option<nat> {
    match pc
    case Walking(Set(_, entry), _, _) => Some(entry)
    case SettingNext(Set(_, entry), _, _, _) => Some(entry)
    case Linking(Set(_, entry), _, _, _) => Some(entry)
    case LoadingOld(Set(_, entry), _, _) => Some(entry)
    case SwappingValue(Set(_, entry), _, _, _) => Some(entry)
    case _ => None
  }

  ghost predicate OwnedInv(s: State, pc: Pc) {
    Owned(pc).Some? ==>
      && s.size <= Owned(pc).value < |s.entries| && Owned(pc).value !in s.linked
      && s.entries[Owned(pc).value].key == pc.key && s.entries[Owned(pc).value].value == pc.op.value
  }

  ghost predicate Apart(p: Pc, q: Pc) {
    Owned(p).Some? ==> Owned(p) != Owned(q)
  }

  /** The key belongs between prev and what followed prev when it was loaded. */
  ghost predicate Between(s: State, prev: nat, key: int, after: Option<nat>) {
    Before(s, prev, key) && (after.Some? ==> after.value < |s.entries| && KeyOf(s, after.value) > key)
  }

  ghost predicate PlaceInv(s: State, pc: Pc) {
    match pc
    case Idle => true
    case Walking(_, key, prev) => Before(s, prev, key)
    case LoadingValue(key, target) => Holds(s, target, key)
    case SettingNext(op, key, prev, after) => op.Set? && Between(s, prev, key, after)
    case Linking(op, key, prev, after) =>
      op.Set? && Between(s, prev, key, after) && NextOf(s, op.entry) == after
    case LoadingOld(op, key, target) => op.Set? && Holds(s, target, key)
    case SwappingValue(op, key, target, _) => op.Set? && Holds(s, target, key)
  }

  ghost predicate PcInv(s: State, pc: Pc) {
    OwnedInv(s, pc) && PlaceInv(s, pc)
  }

  ghost predicate ThreadsInv(s: State) {
    && (forall t {:trigger PcInv(s, s.threads[t])} | 0 <= t < |s.threads| :: PcInv(s, s.threads[t]))
    && (forall t, u {:trigger Apart(s.threads[t], s.threads[u])} |
          0 <= t < |s.threads| && 0 <= u < |s.threads| && t != u :: Apart(s.threads[t], s.threads[u]))
  }

  ghost predicate Inv(s: State) {
    ListInv(s) && ThreadsInv(s)
  }

  // ----- the abstract map -----

  /** What a lookup of the key should give. */
  ghost function Lookup(s: State, key: int): Option<Value> {
    if exists i: nat :: Holds(s, i, key) && i < |s.entries| then
      var i: nat :| Holds(s, i, key) && i < |s.entries|;
      Some(s.entries[i].value)
    else None
  }

  lemma LookupIs(s: State, i: nat, key: int)
    requires ListInv(s) && Holds(s, i, key)
    ensures i < |s.entries| && Lookup(s, key) == Some(s.entries[i].value)
  {
    assert NextInv(s, i);
  }

  // ----- every step keeps the invariant -----

  lemma InitInv(s: State)
    requires Init(s)
    ensures Inv(s)
  {
    assert forall o {:trigger NextInv(s, o)} | o in s.linked :: NextInv(s, o);
  }

  /** Keys are fixed and nothing is ever taken off a list. */
  ghost predicate Grows(s: State, s': State) {
    && s.size >= 1 && s'.size == s.size && |s.entries| <= |s'.entries| && s.linked <= s'.linked
    && (forall i {:trigger KeyOf(s', i)} | 0 <= i < |s.entries| :: KeyOf(s', i) == KeyOf(s, i))
  }

  lemma PlaceKept(s: State, s': State, pc: Pc)
    requires ListInv(s) && Grows(s, s') && PlaceInv(s, pc)
    requires pc.Linking? && pc.op.Set? ==> NextOf(s', pc.op.entry) == NextOf(s, pc.op.entry)
    ensures PlaceInv(s', pc)
  {
    forall o: nat | o in s.linked
      ensures KeyOf(s', o) == KeyOf(s, o)
    {
      assert NextInv(s, o);
    }
  }

  /** The lists are the same: at most unlisted entries have changed or appeared. */
  ghost predicate SameLists(s: State, s': State) {
    && Grows(s, s') && s'.linked == s.linked
    && (forall o {:trigger NextOf(s', o)} | o in s.linked :: NextOf(s', o) == NextOf(s, o))
  }

  lemma SameListsInv(s: State, s': State)
    requires ListInv(s) && SameLists(s, s')
    ensures ListInv(s')
  {
    forall o: nat | o in s.linked
      ensures KeyOf(s', o) == KeyOf(s, o)
    {
      assert NextInv(s, o);
    }
    forall o | o in s'.linked
      ensures NextInv(s', o)
    {
      assert NextInv(s, o);
      forall p | p in s'.linked && Comes(s', o, p)
        ensures NextOf(s', o).Some? && (p == NextOf(s', o).value || Comes(s', NextOf(s', o).value, p))
      {
        assert Comes(s, o, p);
      }
    }
  }

  /** Thread t has moved; the entries the others own are untouched, and its own is one of its
      earlier entry, a new one or none. */
  ghost predicate Moved(s: State, t: nat, s': State) {
    && t < |s.threads| && |s'.threads| == |s.threads|
    && (forall u {:trigger s'.threads[u]} | 0 <= u < |s.threads| && u != t :: s'.threads[u] == s.threads[u])
  }

  ghost predicate OwnKept(s: State, pc: Pc, s': State) {
    Owned(pc).Some? && Owned(pc).value < |s.entries| ==>
      && Owned(pc).value < |s'.entries| && Owned(pc).value !in s'.linked
      && s'.entries[Owned(pc).value] == s.entries[Owned(pc).value]
  }

  lemma OthersKept(s: State, t: nat, s': State)
    requires Inv(s) && Grows(s, s') && Moved(s, t, s')
    requires forall u {:trigger OwnKept(s, s.threads[u], s')} | 0 <= u < |s.threads| && u != t ::
               OwnKept(s, s.threads[u], s')
    requires PcInv(s', s'.threads[t])
    requires Owned(s'.threads[t]).Some? ==>
               Owned(s'.threads[t]) == Owned(s.threads[t]) || Owned(s'.threads[t]).value >= |s.entries|
    ensures ThreadsInv(s')
  {
    forall u | 0 <= u < |s'.threads|
      ensures PcInv(s', s'.threads[u])
    {
      if u != t {
        assert PcInv(s, s.threads[u]) && OwnKept(s, s.threads[u], s');
        PlaceKept(s, s', s.threads[u]);
      }
    }
    forall u, v | 0 <= u < |s'.threads| && 0 <= v < |s'.threads| && u != v
      ensures Apart(s'.threads[u], s'.threads[v])
    {
      assert Apart(s.threads[u], s.threads[v]);
      assert PcInv(s, s.threads[u]) && PcInv(s, s.threads[v]);
    }
  }

  /** No entry changes except in its value, and not in that of an entry that is not listed. */
  ghost predicate OnlyValues(s: State, s': State) {
    && SameLists(s, s') && |s'.entries| == |s.entries|
    && (forall i {:trigger s'.entries[i]} | 0 <= i < |s.entries| && i !in s.linked :: s'.entries[i] == s.entries[i])
  }

  lemma QuietInv(s: State, t: nat, s': State)
    requires Inv(s) && OnlyValues(s, s') && Moved(s, t, s')
    requires PlaceInv(s', s'.threads[t])
    requires Owned(s'.threads[t]).Some? ==>
               && Owned(s'.threads[t]) == Owned(s.threads[t])
               && s'.threads[t].key == s.threads[t].key && s'.threads[t].op == s.threads[t].op
    ensures Inv(s')
  {
    SameListsInv(s, s');
    assert PcInv(s, s.threads[t]);
    forall u | 0 <= u < |s.threads|
      ensures OwnKept(s, s.threads[u], s')
    {
      assert PcInv(s, s.threads[u]);
    }
    OthersKept(s, t, s');
  }

  lemma StartReadInv(s: State, t: nat, e: Event, s': State)
    requires Inv(s) && t < |s.threads| && StartRead(s, t, e, s')
    ensures Inv(s')
  {
    var b: nat := s'.threads[t].prev;
    assert b in s.linked;
    QuietInv(s, t, s');
  }

  lemma StartSetInv(s: State, t: nat, e: Event, s': State)
    requires Inv(s) && t < |s.threads| && StartSet(s, t, e, s')
    ensures Inv(s')
  {
    var b: nat := s'.threads[t].prev;
    assert b in s.linked;
    forall o: nat | o in s.linked
      ensures o < |s.entries|
    {
      assert NextInv(s, o);
    }
    assert |s.entries| !in s.linked;
    SameListsInv(s, s');
    forall u | 0 <= u < |s.threads|
      ensures OwnKept(s, s.threads[u], s')
    {
      assert PcInv(s, s.threads[u]);
    }
    OthersKept(s, t, s');
  }

  lemma WalkInv(s: State, t: nat, e: Event, s': State)
    requires Inv(s) && t < |s.threads| && Walk(s, t, e, s')
    ensures Inv(s')
  {
    assert PcInv(s, s.threads[t]);
    var prev := s.threads[t].prev;
    assert NextInv(s, prev);
    assert NextOf(s, prev).Some? ==> NextInv(s, NextOf(s, prev).value);
    QuietInv(s, t, s');
  }

  lemma LoadValueInv(s: State, t: nat, e: Event, s': State)
    requires Inv(s) && t < |s.threads| && LoadValue(s, t, e, s')
    ensures Inv(s')
  {
    QuietInv(s, t, s');
  }

  lemma SetNextInv(s: State, t: nat, e: Event, s': State)
    requires Inv(s) && t < |s.threads| && SetNext(s, t, e, s')
    ensures Inv(s')
  {
    assert PcInv(s, s.threads[t]);
    SameListsInv(s, s');
    PlaceKept(s, s', s.threads[t]);
    forall u | 0 <= u < |s.threads| && u != t
      ensures OwnKept(s, s.threads[u], s')
    {
      assert Apart(s.threads[t], s.threads[u]);
      assert PcInv(s, s.threads[u]);
    }
    OthersKept(s, t, s');
  }

  lemma LinkFailsInv(s: State, t: nat, e: Event, s': State)
    requires Inv(s) && t < |s.threads| && LinkFails(s, t, e, s')
    ensures Inv(s')
  {
    assert PcInv(s, s.threads[t]);
    var b: nat := s'.threads[t].prev;
    assert b in s.linked;
    QuietInv(s, t, s');
  }

  lemma LoadOldInv(s: State, t: nat, e: Event, s': State)
    requires Inv(s) && t < |s.threads| && LoadOld(s, t, e, s')
    ensures Inv(s')
  {
    assert PcInv(s, s.threads[t]);
    QuietInv(s, t, s');
  }

  lemma SwapValueInv(s: State, t: nat, e: Event, s': State)
    requires Inv(s) && t < |s.threads| && SwapValue(s, t, e, s')
    ensures Inv(s')
  {
    assert PcInv(s, s.threads[t]);
    QuietInv(s, t, s');
  }

  lemma SwapFailsInv(s: State, t: nat, e: Event, s': State)
    requires Inv(s) && t < |s.threads| && SwapFails(s, t, e, s')
    ensures Inv(s')
  {
    assert PcInv(s, s.threads[t]);
    var b: nat := s'.threads[t].prev;
    assert b in s.linked;
    QuietInv(s, t, s');
  }

  /** The new entry fits between prev and the entry that follows it. */
  lemma LinkKeepsLists(s: State, t: nat, e: Event, s': State)
    requires Inv(s) && t < |s.threads| && Link(s, t, e, s')
    ensures Grows(s, s') && ListInv(s')
  {
    assert PcInv(s, s.threads[t]);
    var Linking(op, key, prev, after) := s.threads[t];
    forall o | o in s'.linked
      ensures NextInv(s', o)
    {
      LinkNext(s, prev, op.entry, s', o);
    }
    forall o, p | o in s'.linked && p in s'.linked && o >= s.size && p >= s.size && KeyOf(s', o) == KeyOf(s', p)
      ensures o == p
    {
      LinkedKeyIsNew(s, prev, key);
      assert KeyOf(s, o) == KeyOf(s, p);
    }
  }

  /** When nothing between prev and its next entry has the key, no listed entry has it. */
  lemma LinkedKeyIsNew(s: State, prev: nat, key: int)
    requires ListInv(s) && Before(s, prev, key)
    requires NextOf(s, prev).Some? ==> KeyOf(s, NextOf(s, prev).value) > key
    ensures forall o: nat | o in s.linked && o >= s.size :: KeyOf(s, o) != key
  {
    assert NextInv(s, prev);
    forall o: nat | o in s.linked && o >= s.size
      ensures KeyOf(s, o) != key
    {
      assert NextInv(s, o);
      assert KeyOf(s, o) == key ==> Comes(s, prev, o);
    }
  }

  /** entry is not listed, and belongs between prev and the entry after prev. */
  ghost predicate Fits(s: State, prev: nat, entry: nat) {
    && ListInv(s) && s.size <= entry < |s.entries| && entry !in s.linked
    && Before(s, prev, KeyOf(s, entry))
    && (NextOf(s, prev).Some? ==> KeyOf(s, NextOf(s, prev).value) > KeyOf(s, entry))
  }

  lemma AfterTheNew(s: State, prev: nat, entry: nat, p: nat)
    requires Fits(s, prev, entry) && p in s.linked && Comes(s, entry, p)
    ensures NextOf(s, prev).Some? && (p == NextOf(s, prev).value || Comes(s, NextOf(s, prev).value, p))
  {
    assert NextInv(s, prev) && Comes(s, prev, p);
  }

  lemma AfterPrev(s: State, prev: nat, entry: nat, p: nat)
    requires Fits(s, prev, entry) && p in s.linked && Comes(s, prev, p)
    ensures Comes(s, entry, p)
  {
    assert NextInv(s, prev);
  }

  lemma BeforeTheNew(s: State, prev: nat, entry: nat, o: nat)
    requires Fits(s, prev, entry) && o in s.linked && o != prev && Comes(s, o, entry)
    ensures NextOf(s, o).Some? && Comes(s, NextOf(s, o).value, entry)
  {
    assert NextInv(s, o) && NextInv(s, prev);
    assert Comes(s, prev, o) || Comes(s, o, prev);
  }

  /** The links after entry has been put in behind prev. */
  ghost predicate LinkedIn(s: State, prev: nat, entry: nat, s': State) {
    && Fits(s, prev, entry) && prev < |s.entries|
    && NextOf(s, entry) == NextOf(s, prev)
    && s'.size == s.size && s'.linked == s.linked + {entry}
    && s'.entries == s.entries[prev := s.entries[prev].(next := Some(entry))]
  }

  lemma SameKeys(s: State, prev: nat, entry: nat, s': State, o: nat, p: nat)
    requires LinkedIn(s, prev, entry, s')
    ensures Comes(s', o, p) <==> Comes(s, o, p)
  {
    assert KeyOf(s', o) == KeyOf(s, o) && KeyOf(s', p) == KeyOf(s, p);
  }

  lemma LinkNext(s: State, prev: nat, entry: nat, s': State, o: nat)
    requires LinkedIn(s, prev, entry, s') && o in s'.linked
    ensures NextInv(s', o)
  {
    assert NextInv(s, prev);
    assert o in s.linked ==> NextInv(s, o);
    var next := NextOf(s', o);
    if next.Some? {
      SameKeys(s, prev, entry, s', o, next.value);
      assert o == entry ==> KeyOf(s, next.value) > KeyOf(s, entry);
    }
    forall p | p in s'.linked && Comes(s', o, p)
      ensures next.Some? && (p == next.value || Comes(s', next.value, p))
    {
      NothingBetween(s, prev, entry, s', o, p);
    }
  }

  lemma NothingBetween(s: State, prev: nat, entry: nat, s': State, o: nat, p: nat)
    requires LinkedIn(s, prev, entry, s') && o in s'.linked && p in s'.linked && Comes(s', o, p)
    ensures NextOf(s', o).Some? && (p == NextOf(s', o).value || Comes(s', NextOf(s', o).value, p))
  {
    SameKeys(s, prev, entry, s', o, p);
    if p == entry {
      if o != prev {
        BeforeTheNew(s, prev, entry, o);
        SameKeys(s, prev, entry, s', NextOf(s, o).value, p);
      }
    } else if o == entry {
      AfterTheNew(s, prev, entry, p);
      SameKeys(s, prev, entry, s', NextOf(s, prev).value, p);
    } else if o == prev {
      AfterPrev(s, prev, entry, p);
      SameKeys(s, prev, entry, s', entry, p);
    } else {
      assert NextInv(s, o);
      SameKeys(s, prev, entry, s', NextOf(s, o).value, p);
    }
  }

  lemma LinkInv(s: State, t: nat, e: Event, s': State)
    requires Inv(s) && t < |s.threads| && Link(s, t, e, s')
    ensures Inv(s')
  {
    assert PcInv(s, s.threads[t]);
    LinkKeepsLists(s, t, e, s');
    forall u | 0 <= u < |s.threads| && u != t
      ensures OwnKept(s, s.threads[u], s')
    {
      assert Apart(s.threads[t], s.threads[u]);
      assert PcInv(s, s.threads[u]);
    }
    OthersKept(s, t, s');
  }

  lemma StepInv(s: State, t: nat, e: Event, s': State)
    requires Inv(s) && Step(s, t, e, s')
    ensures Inv(s')
  {
    if StartRead(s, t, e, s') {
      StartReadInv(s, t, e, s');
    } else if StartSet(s, t, e, s') {
      StartSetInv(s, t, e, s');
    } else if Walk(s, t, e, s') {
      WalkInv(s, t, e, s');
    } else if LoadValue(s, t, e, s') {
      LoadValueInv(s, t, e, s');
    } else if SetNext(s, t, e, s') {
      SetNextInv(s, t, e, s');
    } else if Link(s, t, e, s') {
      LinkInv(s, t, e, s');
    } else if LinkFails(s, t, e, s') {
      LinkFailsInv(s, t, e, s');
    } else if LoadOld(s, t, e, s') {
      LoadOldInv(s, t, e, s');
    } else if SwapValue(s, t, e, s') {
      SwapValueInv(s, t, e, s');
    } else {
      SwapFailsInv(s, t, e, s');
    }
  }

  // ----- every step is a step of the abstract map -----

  lemma SameLookup(s: State, s': State, key: int)
    requires ListInv(s) && ListInv(s')
    requires forall i: nat | Holds(s', i, key) && i < |s'.entries| ::
               Holds(s, i, key) && i < |s.entries| && s'.entries[i].value == s.entries[i].value
    requires forall i: nat | Holds(s, i, key) :: Holds(s', i, key)
    ensures Lookup(s', key) == Lookup(s, key)
  {
    if i: nat :| Holds(s, i, key) {
      LookupIs(s, i, key);
      LookupIs(s', i, key);
    }
  }

  /** A step without a SetDone changes no lookup. */
  lemma QuietLookup(s: State, t: nat, e: Event, s': State, key: int)
    requires Inv(s) && Inv(s') && Step(s, t, e, s') && !e.SetDone?
    ensures Lookup(s', key) == Lookup(s, key)
  {
    assert PcInv(s, s.threads[t]);
    forall i: nat | i in s.linked
      ensures i < |s.entries| && KeyOf(s', i) == KeyOf(s, i) && s'.entries[i].value == s.entries[i].value
    {
      assert NextInv(s, i);
    }
    SameLookup(s, s', key);
  }

  lemma LinkSetsLookup(s: State, t: nat, e: Event, s': State, key: int)
    requires Inv(s) && Inv(s') && t < |s.threads| && Link(s, t, e, s')
    ensures Lookup(s', key) == if key == e.key then Some(e.value) else Lookup(s, key)
  {
    assert PcInv(s, s.threads[t]);
    var entry := s.threads[t].op.entry;
    assert Holds(s', entry, e.key);
    LookupIs(s', entry, e.key);
    forall i: nat | i in s.linked
      ensures i < |s.entries| && KeyOf(s', i) == KeyOf(s, i) && s'.entries[i].value == s.entries[i].value
    {
      assert NextInv(s, i);
    }
    if key != e.key {
      SameLookup(s, s', key);
    }
  }

  lemma SwapSetsLookup(s: State, t: nat, e: Event, s': State, key: int)
    requires Inv(s) && Inv(s') && t < |s.threads| && SwapValue(s, t, e, s')
    ensures Lookup(s', key) == if key == e.key then Some(e.value) else Lookup(s, key)
  {
    assert PcInv(s, s.threads[t]);
    var target := s.threads[t].target;
    assert Holds(s', target, e.key);
    LookupIs(s', target, e.key);
    forall i: nat | i in s.linked
      ensures i < |s.entries| && KeyOf(s', i) == KeyOf(s, i)
    {
      assert NextInv(s, i);
    }
    if key != e.key {
      SameLookup(s, s', key);
    }
  }

  /** Whatever step is taken: only a SetDone changes what a lookup gives, and to the value set. */
  lemma StepChangesLookup(s: State, t: nat, e: Event, s': State, key: int)
    requires Inv(s) && Step(s, t, e, s')
    ensures Lookup(s', key) == if e.SetDone? && e.key == key then Some(e.value) else Lookup(s, key)
  {
    StepInv(s, t, e, s');
    if !e.SetDone? {
      QuietLookup(s, t, e, s', key);
    } else if Link(s, t, e, s') {
      LinkSetsLookup(s, t, e, s', key);
    } else {
      SwapSetsLookup(s, t, e, s', key);
    }
  }

  /** An answer is right at the step that gives it: for a miss at its last load of a next pointer. */
  lemma AnswersAreRight(s: State, t: nat, e: Event, s': State)
    requires Inv(s) && Step(s, t, e, s')
    ensures e.HasIs? ==> e.found == Lookup(s, e.key).Some?
    ensures e.GetIs? ==> e.result == Lookup(s, e.key)
  {
    assert PcInv(s, s.threads[t]);
    if Walk(s, t, e, s') && (e.HasIs? || e.GetIs?) {
      var Walking(op, key, prev) := s.threads[t];
      var next := NextOf(s, prev);
      assert NextInv(s, prev);
      if next.Some? && KeyOf(s, next.value) == key {
        LookupIs(s, next.value, key);
      } else {
        LinkedKeyIsNew(s, prev, key);
      }
    } else if LoadValue(s, t, e, s') {
      LookupIs(s, s.threads[t].target, e.key);
    }
  }

  // ----- calls and their answers -----

  datatype Call = NoCall | HasCall(key: int) | GetCall(key: int) | SetCall(key: int, value: Value)

  ghost function CallOf(pc: Pc): Call {
    match pc
    case Idle => NoCall
    case LoadingValue(key, _) => GetCall(key)
    case _ =>
      match pc.op
      case Has => HasCall(pc.key)
      case Get => GetCall(pc.key)
      case Set(value, _) => SetCall(pc.key, value)
  }

  /** A call is answered exactly at the step in which it returns, and once: an answer has the key
      and the value of the call, any other step of a running call leaves it running. */
  lemma EachCallIsAnsweredOnce(s: State, t: nat, e: Event, s': State)
    requires Step(s, t, e, s')
    ensures e.Internal? ==> s'.threads[t] != Idle && (s.threads[t] != Idle ==> CallOf(s'.threads[t]) == CallOf(s.threads[t]))
    ensures !e.Internal? ==> s'.threads[t] == Idle
    ensures e.HasIs? ==> CallOf(s.threads[t]) == HasCall(e.key)
    ensures e.GetIs? ==> CallOf(s.threads[t]) == GetCall(e.key)
    ensures e.SetDone? ==> CallOf(s.threads[t]) == SetCall(e.key, e.value)
    ensures forall u | 0 <= u < |s.threads| && u != t :: s'.threads[u] == s.threads[u]
  {
    if StartRead(s, t, e, s') || StartSet(s, t, e, s') {
      assert s.threads[t] == Idle;
    }
  }

  // ----- runs -----

  /** One value in `moves` for each step: the thread that takes it and what it tells. */
  datatype Move = Move(thread: nat, event: Event)

  ghost predicate IsRun(run: seq<State>, moves: seq<Move>) {
    && |run| == |moves| + 1 && Init(run[0])
    && (forall i {:trigger moves[i]} | 0 <= i < |moves| :: Step(run[i], moves[i].thread, moves[i].event, run[i + 1]))
  }

  lemma {:induction false} RunInv(run: seq<State>, moves: seq<Move>, i: nat)
    requires IsRun(run, moves) && i < |run|
    ensures Inv(run[i])
  {
    if i == 0 {
      InitInv(run[0]);
    } else {
      RunInv(run, moves, i - 1);
      StepInv(run[i - 1], moves[i - 1].thread, moves[i - 1].event, run[i]);
    }
  }

  /** The value of the last finished Set of the key among the first n moves. */
  ghost function LastSet(moves: seq<Move>, n: nat, key: int): Option<Value>
    requires n <= |moves|
  {
    if n == 0 then None
    else if moves[n - 1].event.SetDone? && moves[n - 1].event.key == key then Some(moves[n - 1].event.value)
    else LastSet(moves, n - 1, key)
  }

  lemma {:induction false} LookupIsLastSet(run: seq<State>, moves: seq<Move>, n: nat, key: int)
    requires IsRun(run, moves) && n <= |moves|
    ensures Lookup(run[n], key) == LastSet(moves, n, key)
  {
    if n > 0 {
      var move := moves[n - 1];
      LookupIsLastSet(run, moves, n - 1, key);
      RunInv(run, moves, n - 1);
      StepChangesLookup(run[n - 1], move.thread, move.event, run[n], key);
    }
  }

  /** Linearizability: whatever the interleaving, each answer is the one that the Sets finished
      before it, in the order in which they finished, give for its key. */
  lemma RunsAreLinearizable(run: seq<State>, moves: seq<Move>, n: nat)
    requires IsRun(run, moves) && n < |moves|
    ensures moves[n].event.HasIs? ==> moves[n].event.found == LastSet(moves, n, moves[n].event.key).Some?
    ensures moves[n].event.GetIs? ==> moves[n].event.result == LastSet(moves, n, moves[n].event.key)
  {
    RunInv(run, moves, n);
    AnswersAreRight(run[n], moves[n].thread, moves[n].event, run[n + 1]);
    if moves[n].event.HasIs? || moves[n].event.GetIs? {
      LookupIsLastSet(run, moves, n, moves[n].event.key);
    }
  }

  // ----- the lists -----

  /** chain holds what is reached from entry by next pointers. */
  ghost predicate IsList(s: State, entry: nat, chain: seq<nat>)
  {
    && chain != [] && chain[0] == entry
    && (forall i {:trigger NextOf(s, chain[i])} | 0 <= i < |chain| :: NextOf(s, chain[i]) == ElementAt(chain, i + 1))
  }

  ghost predicate Ascending(s: State, chain: seq<nat>) {
    forall i, j {:trigger KeyOf(s, chain[i]), KeyOf(s, chain[j])} | 0 < i < j < |chain| ::
      KeyOf(s, chain[i]) < KeyOf(s, chain[j])
  }

  ghost function Rest(s: State, entry: nat): set<nat>
    requires s.size >= 1
  {
    set o | o in s.linked && Comes(s, entry, o)
  }

  lemma TailIsLater(s: State, entry: nat, chain: seq<nat>, i: nat)
    requires ListInv(s) && entry in s.linked && entry >= s.size && IsList(s, entry, chain) && 0 < i < |chain|
    requires forall o | o in chain :: o == entry || o in Rest(s, entry)
    ensures KeyOf(s, entry) < KeyOf(s, chain[i])
  {
    assert chain[i - 1] in chain && NextOf(s, chain[i - 1]) == ElementAt(chain, i);
    assert NextInv(s, chain[i - 1]);
  }

  /** An entry in front of the list that starts at its next entry. */
  lemma Prepend(s: State, entry: nat, tail: seq<nat>)
    requires ListInv(s) && entry in s.linked && tail != [] && NextOf(s, entry) == Some(tail[0])
    requires IsList(s, tail[0], tail) && Ascending(s, tail)
    requires forall o | o in tail :: o == tail[0] || o in Rest(s, tail[0])
    ensures IsList(s, entry, [entry] + tail) && Ascending(s, [entry] + tail)
  {
    assert NextInv(s, entry);
    var chain := [entry] + tail;
    forall i | 1 < i < |chain|
      ensures KeyOf(s, chain[1]) < KeyOf(s, chain[i])
    {
      TailIsLater(s, tail[0], tail, i - 1);
    }
    forall i, j | 0 < i < j < |chain|
      ensures KeyOf(s, chain[i]) < KeyOf(s, chain[j])
    {
      assert chain[i] == tail[i - 1] && chain[j] == tail[j - 1];
    }
  }

  /** Every list is finite, strictly ascending, and holds exactly the linked entries of its bucket. */
  lemma {:induction false} ListFrom(s: State, entry: nat) returns (chain: seq<nat>)
    requires ListInv(s) && entry in s.linked
    ensures IsList(s, entry, chain) && Ascending(s, chain)
    ensures forall o {:trigger o in chain} {:trigger o in Rest(s, entry)} ::
              o in chain <==> o == entry || o in Rest(s, entry)
    decreases Rest(s, entry)
  {
    assert NextInv(s, entry);
    match NextOf(s, entry)
    case None =>
      chain := [entry];
      assert Rest(s, entry) == {};
    case Some(next) =>
      assert next in Rest(s, entry) && next !in Rest(s, next);
      forall o | o in s.linked
        ensures o in Rest(s, entry) <==> o == next || o in Rest(s, next)
      {
        assert Comes(s, next, o) ==> Comes(s, entry, o);
      }
      var tail := ListFrom(s, next);
      Prepend(s, entry, tail);
      chain := [entry] + tail;
  }

  /** From one state of a run to a later one, lists only grow and no key changes. */
  lemma {:induction false} ListsOnlyGrow(run: seq<State>, moves: seq<Move>, i: nat, j: nat)
    requires IsRun(run, moves) && i <= j < |run|
    ensures Grows(run[i], run[j])
  {
    RunInv(run, moves, i);
    if i < j {
      ListsOnlyGrow(run, moves, i, j - 1);
      assert Step(run[j - 1], moves[j - 1].thread, moves[j - 1].event, run[j]);
      forall k | 0 <= k < |run[j - 1].entries|
        ensures KeyOf(run[j], k) == KeyOf(run[j - 1], k)
      {
      }
    }
  }

  // ----- a call that nobody disturbs ends -----

  /** Thread t takes these steps alone, and none of them is an answer. */
  ghost predicate IsPath(path: seq<State>, t: nat) {
    path != [] && forall k {:trigger path[k]} | 0 < k < |path| :: Step(path[k - 1], t, Internal, path[k])
  }

  /** After some steps of its own the thread answers. */
  ghost predicate Ends(path: seq<State>, t: nat, s: State, e: Event, s': State) {
    IsPath(path, t) && path[0] == s && Step(path[|path| - 1], t, e, s') && e != Internal
  }

  lemma StepsFirst(s: State, t: nat, s1: State, path: seq<State>, e: Event, s': State)
    requires Step(s, t, Internal, s1) && Ends(path, t, s1, e, s')
    ensures Ends([s] + path, t, s, e, s')
  {
  }

  lemma AnswersNow(s: State, t: nat, e: Event, s': State)
    requires Step(s, t, e, s') && e != Internal
    ensures Ends([s], t, s, e, s')
  {
  }

  lemma LoadEnds(s: State, t: nat) returns (path: seq<State>, e: Event, s': State)
    requires Inv(s) && t < |s.threads| && s.threads[t].LoadingValue?
    ensures Ends(path, t, s, e, s')
  {
    assert PcInv(s, s.threads[t]);
    var LoadingValue(key, target) := s.threads[t];
    assert NextInv(s, target);
    e, s' := GetIs(key, Some(s.entries[target].value)), Goto(s, t, Idle);
    assert LoadValue(s, t, e, s');
    path := [s];
  }

  lemma SwapEnds(s: State, t: nat) returns (path: seq<State>, e: Event, s': State)
    requires Inv(s) && t < |s.threads| && s.threads[t].SwappingValue?
    ensures Ends(path, t, s, e, s')
  {
    assert PcInv(s, s.threads[t]);
    var SwappingValue(op, key, target, version) := s.threads[t];
    assert NextInv(s, target);
    var entry := s.entries[target];
    e := SetDone(key, op.value);
    s' := Goto(s, t, Idle).(entries := s.entries[target := entry.(value := op.value, version := entry.version + 1)]);
    assert SwapValue(s, t, e, s');
    path := [s];
  }

  lemma LoadOldEnds(s: State, t: nat) returns (path: seq<State>, e: Event, s': State)
    requires Inv(s) && t < |s.threads| && s.threads[t].LoadingOld?
    ensures Ends(path, t, s, e, s')
  {
    assert PcInv(s, s.threads[t]);
    var LoadingOld(op, key, target) := s.threads[t];
    assert NextInv(s, target);
    var s1 := Goto(s, t, SwappingValue(op, key, target, s.entries[target].version));
    assert LoadOld(s, t, Internal, s1);
    StepInv(s, t, Internal, s1);
    path, e, s' := SwapEnds(s1, t);
    StepsFirst(s, t, s1, path, e, s');
    path := [s] + path;
  }

  /** The link is still what the search has found. */
  lemma LinkEnds(s: State, t: nat) returns (path: seq<State>, e: Event, s': State)
    requires Inv(s) && t < |s.threads| && s.threads[t].Linking? && NextOf(s, s.threads[t].prev) == s.threads[t].after
    ensures Ends(path, t, s, e, s')
  {
    assert PcInv(s, s.threads[t]);
    var Linking(op, key, prev, after) := s.threads[t];
    assert NextInv(s, prev);
    e := SetDone(key, op.value);
    s' := Goto(s, t, Idle).(entries := s.entries[prev := s.entries[prev].(next := Some(op.entry))],
                            linked := s.linked + {op.entry});
    assert Link(s, t, e, s');
    path := [s];
  }

  lemma SetNextEnds(s: State, t: nat) returns (path: seq<State>, e: Event, s': State)
    requires Inv(s) && t < |s.threads| && s.threads[t].SettingNext? && NextOf(s, s.threads[t].prev) == s.threads[t].after
    ensures Ends(path, t, s, e, s')
  {
    assert PcInv(s, s.threads[t]);
    var SettingNext(op, key, prev, after) := s.threads[t];
    var s1 := Goto(s, t, Linking(op, key, prev, after))
              .(entries := s.entries[op.entry := s.entries[op.entry].(next := after)]);
    assert SetNext(s, t, Internal, s1);
    StepInv(s, t, Internal, s1);
    path, e, s' := LinkEnds(s1, t);
    StepsFirst(s, t, s1, path, e, s');
    path := [s] + path;
  }

  /** The walk has found the key. */
  lemma FoundEnds(s: State, t: nat) returns (path: seq<State>, e: Event, s': State)
    requires Inv(s) && t < |s.threads| && s.threads[t].Walking?
    requires var next := NextOf(s, s.threads[t].prev); next.Some? && KeyOf(s, next.value) == s.threads[t].key
    ensures Ends(path, t, s, e, s')
  {
    var Walking(op, key, prev) := s.threads[t];
    var target := NextOf(s, prev).value;
    if op.Has? {
      e, s' := HasIs(key, true), Goto(s, t, Idle);
      assert Walk(s, t, e, s');
      path := [s];
    } else {
      var s1 := Goto(s, t, if op.Get? then LoadingValue(key, target) else LoadingOld(op, key, target));
      assert Walk(s, t, Internal, s1);
      StepInv(s, t, Internal, s1);
      if op.Get? {
        path, e, s' := LoadEnds(s1, t);
      } else {
        path, e, s' := LoadOldEnds(s1, t);
      }
      StepsFirst(s, t, s1, path, e, s');
      path := [s] + path;
    }
  }

  /** The walk has come to where the key would be. */
  lemma NotFoundEnds(s: State, t: nat) returns (path: seq<State>, e: Event, s': State)
    requires Inv(s) && t < |s.threads| && s.threads[t].Walking?
    requires var next := NextOf(s, s.threads[t].prev); next.Some? ==> KeyOf(s, next.value) > s.threads[t].key
    ensures Ends(path, t, s, e, s')
  {
    var Walking(op, key, prev) := s.threads[t];
    if op.Set? {
      var s1 := Goto(s, t, SettingNext(op, key, prev, NextOf(s, prev)));
      assert Walk(s, t, Internal, s1);
      StepInv(s, t, Internal, s1);
      path, e, s' := SetNextEnds(s1, t);
      StepsFirst(s, t, s1, path, e, s');
      path := [s] + path;
    } else {
      e, s' := if op.Has? then HasIs(key, false) else GetIs(key, None), Goto(s, t, Idle);
      assert Walk(s, t, e, s');
      path := [s];
    }
  }

  lemma {:induction false} WalkEnds(s: State, t: nat) returns (path: seq<State>, e: Event, s': State)
    requires Inv(s) && t < |s.threads| && s.threads[t].Walking?
    ensures Ends(path, t, s, e, s')
    decreases Rest(s, s.threads[t].prev)
  {
    assert PcInv(s, s.threads[t]);
    var Walking(op, key, prev) := s.threads[t];
    var next := NextOf(s, prev);
    if next.Some? && KeyOf(s, next.value) == key {
      path, e, s' := FoundEnds(s, t);
    } else if next.Some? && KeyOf(s, next.value) < key {
      var s1 := Goto(s, t, Walking(op, key, next.value));
      assert Walk(s, t, Internal, s1);
      StepInv(s, t, Internal, s1);
      RestShrinks(s, s1, prev, next.value);
      path, e, s' := WalkEnds(s1, t);
      StepsFirst(s, t, s1, path, e, s');
      path := [s] + path;
    } else {
      path, e, s' := NotFoundEnds(s, t);
    }
  }

  lemma RestShrinks(s: State, s1: State, prev: nat, next: nat)
    requires ListInv(s) && prev in s.linked && NextOf(s, prev) == Some(next)
    requires s1.size == s.size && s1.entries == s.entries && s1.linked == s.linked
    ensures Rest(s1, next) < Rest(s, prev)
  {
    assert NextInv(s, prev);
    assert next in Rest(s, prev) && next !in Rest(s1, next);
    forall o | o in Rest(s1, next)
      ensures o in Rest(s, prev)
    {
      assert Comes(s1, next, o) ==> Comes(s, next, o);
      assert Comes(s, next, o) ==> Comes(s, prev, o);
    }
  }

  /** Whatever other threads have done before, a call that goes on alone is answered. */
  lemma CallEndsAlone(s: State, t: nat) returns (path: seq<State>, e: Event, s': State)
    requires Inv(s) && t < |s.threads| && s.threads[t] != Idle
    ensures Ends(path, t, s, e, s')
  {
    assert PcInv(s, s.threads[t]);
    match s.threads[t]
    case Walking(_, _, _) => path, e, s' := WalkEnds(s, t);
    case LoadingValue(_, _) => path, e, s' := LoadEnds(s, t);
    case LoadingOld(_, _, _) => path, e, s' := LoadOldEnds(s, t);
    case SwappingValue(_, _, _, _) => path, e, s' := SwapEnds(s, t);
    case Linking(_, _, _, _) => path, e, s' := LinkingEnds(s, t);
    case SettingNext(op, key, prev, after) =>
      var s1 := Goto(s, t, Linking(op, key, prev, after))
                .(entries := s.entries[op.entry := s.entries[op.entry].(next := after)]);
      assert SetNext(s, t, Internal, s1);
      StepInv(s, t, Internal, s1);
      path, e, s' := LinkingEnds(s1, t);
      StepsFirst(s, t, s1, path, e, s');
      path := [s] + path;
  }

  /** The compare-and-swap succeeds, or the search begins again and finds what is there now. */
  lemma LinkingEnds(s: State, t: nat) returns (path: seq<State>, e: Event, s': State)
    requires Inv(s) && t < |s.threads| && s.threads[t].Linking?
    ensures Ends(path, t, s, e, s')
  {
    var Linking(op, key, prev, after) := s.threads[t];
    if NextOf(s, prev) == after {
      path, e, s' := LinkEnds(s, t);
    } else {
      var s1 := Goto(s, t, Walking(op, key, key % s.size));
      assert LinkFails(s, t, Internal, s1);
      StepInv(s, t, Internal, s1);
      path, e, s' := WalkEnds(s1, t);
      StepsFirst(s, t, s1, path, e, s');
      path := [s] + path;
    }
  }
}
