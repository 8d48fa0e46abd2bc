/** The trace store of web/src/swath-xray.ts: an insertion-ordered map kept to its capacity
    by latest update, with entries tagged by the compare side they belong to. */
module TraceStore {
  import opened Wrappers
  import opened Compare
  import TraceFeed

  /** A received trace: its layer and tile, the frame it was asked for, and the rest. */
  datatype Trace = Trace(layer: string, tile: string, requested: Option<string>, body: nat)

  datatype Entry = Entry(trace: Trace, side: Option<Side>)

  datatype Slot = Slot(key: string, entry: Entry)

  function KeyOf(side: Option<Side>, trace: Trace): string {
    match side
    case None => trace.layer + "/" + trace.tile
    case Some(Left) => "left:" + trace.layer + "/" + trace.tile
    case Some(Right) => "right:" + trace.layer + "/" + trace.tile
  }

  function SideOf(compare: Option<Sides>, trace: Trace): Option<Side> {
    if compare.Some? then TraceSide(compare.value, trace.layer, trace.requested) else None
  }

  /** The slot a trace updates while `compare` is active. */
  function SlotOf(compare: Option<Sides>, trace: Trace): Slot {
    var side := SideOf(compare, trace);
    Slot(KeyOf(side, trace), Entry(trace, side))
  }

  /** The slots without `key`, in order. */
  function Without(slots: seq<Slot>, key: string): seq<Slot> {
    if slots == [] then []
    else (if slots[0].key == key then [] else [slots[0]]) + Without(slots[1..], key)
  }

  /** The slots of no side, in order. */
  function Plain(slots: seq<Slot>): seq<Slot> {
    if slots == [] then []
    else (if slots[0].entry.side.Some? then [] else [slots[0]]) + Plain(slots[1..])
  }

  // ----- The state machine -----

  datatype State = State(slots: seq<Slot>, compare: Option<Sides>)

  datatype Event = OnTrace(trace: Trace) | SetCompare(compare: Option<Sides>)

  function Step(s: State, e: Event, capacity: nat): State {
    match e
    case OnTrace(trace) =>
      var slot := SlotOf(s.compare, trace);
      s.(slots := TraceFeed.Last(Without(s.slots, slot.key) + [slot], capacity))
    case SetCompare(compare) =>
      State(if compare != s.compare then Plain(s.slots) else s.slots, compare)
  }

  function After(s: State, events: seq<Event>, capacity: nat): State {
    if events == [] then s
    else Step(After(s, events[..|events| - 1], capacity), events[|events| - 1], capacity)
  }

  // ----- What is kept -----

  ghost predicate DistinctKeys(slots: seq<Slot>) {
    forall i, j :: 0 <= i < j < |slots| ==> slots[i].key != slots[j].key
  }

  /** A tagged entry is one the sides now compared put on that side. */
  predicate Tagged(slot: Slot, compare: Option<Sides>) {
    slot.key == KeyOf(slot.entry.side, slot.entry.trace) &&
    (slot.entry.side.Some? ==> slot.entry.side == SideOf(compare, slot.entry.trace))
  }

  ghost predicate Valid(s: State, capacity: nat) {
    |s.slots| <= capacity && DistinctKeys(s.slots) && forall slot :: slot in s.slots ==> Tagged(slot, s.compare)
  }

  lemma {:induction false} WithoutKeeps(slots: seq<Slot>, key: string)
    requires DistinctKeys(slots)
    ensures DistinctKeys(Without(slots, key))
    ensures forall slot :: slot in Without(slots, key) <==> slot in slots && slot.key != key
    ensures |slots| - 1 <= |Without(slots, key)| <= |slots|
  {
    if slots != [] {
      WithoutKeeps(slots[1..], key);
      if slots[0].key == key { AbsentStays(slots[1..], key); }
    }
  }

  lemma {:induction false} AbsentStays(slots: seq<Slot>, key: string)
    requires forall slot :: slot in slots ==> slot.key != key
    ensures Without(slots, key) == slots
  {
    if slots != [] { AbsentStays(slots[1..], key); }
  }

  lemma {:induction false} PlainKeeps(slots: seq<Slot>)
    requires DistinctKeys(slots)
    ensures DistinctKeys(Plain(slots)) && |Plain(slots)| <= |slots|
    ensures forall slot :: slot in Plain(slots) <==> slot in slots && slot.entry.side == None
  {
    if slots != [] { PlainKeeps(slots[1..]); }
  }

  lemma StepKeepsValid(s: State, e: Event, capacity: nat)
    requires Valid(s, capacity)
    ensures Valid(Step(s, e, capacity), capacity)
  {
    hide KeyOf, SideOf, Without, Plain;
    match e
    case OnTrace(trace) =>
      var slot := SlotOf(s.compare, trace);
      WithoutKeeps(s.slots, slot.key);
      var all := Without(s.slots, slot.key) + [slot];
      assert DistinctKeys(all);
    case SetCompare(compare) =>
      PlainKeeps(s.slots);
  }

  /** Over every run, from an empty store: no more entries than the capacity, one per key;
      every tagged entry belongs to its side of the comparison now active; and while none
      is active there is no tagged entry. */
  lemma {:induction false} EveryRunTagged(events: seq<Event>, capacity: nat)
    ensures Valid(After(State([], None), events, capacity), capacity)
    ensures var s := After(State([], None), events, capacity);
            forall slot :: slot in s.slots && slot.entry.side.Some? ==>
              s.compare.Some? &&
              TraceSide(s.compare.value, slot.entry.trace.layer, slot.entry.trace.requested) == slot.entry.side
  {
    if events != [] {
      var front := events[..|events| - 1];
      EveryRunTagged(front, capacity);
      StepKeepsValid(After(State([], None), front, capacity), events[|events| - 1], capacity);
    }
  }

  /** So while a comparison is active each tagged entry is one its side is showing: the
      right's of its layer and instant, the left's of the active layer and frame. */
  lemma TaggedIsShown(events: seq<Event>, capacity: nat, spec: Spec, active: string, datetime: Option<string>,
                      slot: Slot)
    requires After(State([], None), events, capacity).compare == Some(CompareSides(spec, active, datetime))
    requires slot in After(State([], None), events, capacity).slots
    ensures var trace := slot.entry.trace;
            (slot.entry.side == Some(Right) ==>
              if spec.mode == Date then trace.layer == active && trace.requested == Some(spec.value)
              else trace.layer == spec.value) &&
            (slot.entry.side == Some(Left) ==>
              trace.layer == active && (spec.mode == Date ==> trace.requested == datetime))
  {
    hide TraceSide, CompareSides, After;
    EveryRunTagged(events, capacity);
    SideOfTrace(spec, active, datetime, slot.entry.trace.layer, slot.entry.trace.requested);
  }

  // ----- Latest by key -----

  ghost predicate HasKey(slots: seq<Slot>, key: string) {
    exists slot :: slot in slots && slot.key == key
  }

  /** The updates no later update of the same key replaces, in order. */
  ghost function Latest(updates: seq<Slot>): seq<Slot> {
    if updates == [] then []
    else if HasKey(updates[1..], updates[0].key) then Latest(updates[1..])
    else [updates[0]] + Latest(updates[1..])
  }

  /** The updates a run of traces makes while `compare` is active. */
  function Updates(events: seq<Event>, compare: Option<Sides>): seq<Slot> {
    if events == [] then []
    else
      var e := events[|events| - 1];
      Updates(events[..|events| - 1], compare) + if e.OnTrace? then [SlotOf(compare, e.trace)] else []
  }

  lemma {:induction false} LatestKeys(updates: seq<Slot>)
    ensures forall slot :: slot in Latest(updates) ==> slot in updates
    ensures DistinctKeys(Latest(updates))
  {
    if updates != [] { LatestKeys(updates[1..]); }
  }

  lemma {:induction false} LatestOfDistinct(slots: seq<Slot>)
    requires DistinctKeys(slots)
    ensures Latest(slots) == slots
  {
    if slots != [] {
      assert !HasKey(slots[1..], slots[0].key);
      LatestOfDistinct(slots[1..]);
    }
  }

  lemma {:induction false} LatestSnoc(updates: seq<Slot>, x: Slot)
    ensures Latest(updates + [x]) == Without(Latest(updates), x.key) + [x]
  {
    hide HasKey, Without;
    var all := updates + [x];
    if updates == [] {
      assert all == [x] && all[1..] == [] && !HasKey([], x.key) by { NoKeys(x.key); }
      assert Without([], x.key) == [] by { WithoutCons([], x, x.key); }
    } else {
      var a, rest := updates[0], updates[1..];
      assert all[1..] == rest + [x] && all[0] == a;
      LatestSnoc(rest, x);
      HasKeySnoc(rest, x, a.key);
      WithoutCons(Latest(rest), a, x.key);
    }
  }

  lemma NoKeys(key: string)
    ensures !HasKey([], key)
  {
  }

  lemma WithoutCons(slots: seq<Slot>, a: Slot, key: string)
    ensures Without([a] + slots, key) == (if a.key == key then [] else [a]) + Without(slots, key)
    ensures Without([], key) == []
  {
    assert ([a] + slots)[1..] == slots;
  }

  lemma HasKeySnoc(slots: seq<Slot>, x: Slot, key: string)
    ensures HasKey(slots + [x], key) <==> HasKey(slots, key) || x.key == key
  {
    if x.key == key { assert x in slots + [x]; }
    if slot :| slot in slots && slot.key == key { assert slot in slots + [x]; }
  }

  lemma {:induction false} WithoutConcat(a: seq<Slot>, b: seq<Slot>, key: string)
    ensures Without(a + b, key) == Without(a, key) + Without(b, key)
  {
    if a == [] {
      assert a + b == b;
    } else {
      assert (a + b)[1..] == a[1..] + b;
      WithoutConcat(a[1..], b, key);
    }
  }

  /** Evicting before an update or after it comes to the same. */
  lemma EvictOnce(slots: seq<Slot>, x: Slot, n: nat)
    requires DistinctKeys(slots)
    ensures TraceFeed.Last(Without(TraceFeed.Last(slots, n), x.key) + [x], n)
         == TraceFeed.Last(Without(slots, x.key) + [x], n)
  {
    if |slots| > n {
      var evicted, kept := slots[..|slots| - n], slots[|slots| - n..];
      assert slots == evicted + kept;
      WithoutConcat(evicted, kept, x.key);
      WithoutKeeps(kept, x.key);
      var b := Without(kept, x.key) + [x];
      assert Without(slots, x.key) + [x] == Without(evicted, x.key) + b;
      LastOfSuffix(Without(evicted, x.key), b, n);
    }
  }

  lemma LastOfSuffix(a: seq<Slot>, b: seq<Slot>, n: nat)
    requires |b| >= n
    ensures TraceFeed.Last(a + b, n) == TraceFeed.Last(b, n)
  {
  }

  ghost predicate SidesKept(events: seq<Event>, compare: Option<Sides>) {
    forall i :: 0 <= i < |events| && events[i].SetCompare? ==> events[i].compare == compare
  }

  /** Between changes of sides the store is the last `capacity` keys by latest update, each
      with its latest trace, of the entries it began with and the traces since. */
  lemma {:induction false} StoreKeepsLatest(s: State, events: seq<Event>, capacity: nat)
    requires Valid(s, capacity) && SidesKept(events, s.compare)
    ensures After(s, events, capacity).compare == s.compare
    ensures After(s, events, capacity).slots
         == TraceFeed.Last(Latest(s.slots + Updates(events, s.compare)), capacity)
  {
    if events == [] {
      assert s.slots + [] == s.slots;
      LatestOfDistinct(s.slots);
    } else {
      var front, e := events[..|events| - 1], events[|events| - 1];
      StoreKeepsLatest(s, front, capacity);
      var updates := s.slots + Updates(front, s.compare);
      if e.OnTrace? {
        var slot := SlotOf(s.compare, e.trace);
        assert s.slots + Updates(events, s.compare) == updates + [slot];
        LatestSnoc(updates, slot);
        LatestKeys(updates);
        EvictOnce(Latest(updates), slot, capacity);
      } else {
        assert s.slots + Updates(events, s.compare) == updates;
      }
    }
  }

  // ----- Across changes of sides -----

  /** Every slot of no side, in order: itself. */
  lemma {:induction false} PlainStays(slots: seq<Slot>)
    requires forall slot :: slot in slots ==> slot.entry.side == None
    ensures Plain(slots) == slots
  {
    if slots != [] { PlainStays(slots[1..]); }
  }

  lemma {:induction false} PlainOnly(slots: seq<Slot>)
    ensures forall slot :: slot in Plain(slots) ==> slot.entry.side == None
    ensures Plain(Plain(slots)) == Plain(slots)
  {
    if slots != [] { PlainOnly(slots[1..]); }
    PlainStays(Plain(slots));
  }

  /** Whatever comparison is set, the untagged entries afterwards are exactly those before, in
      their order; and if the sides change nothing else is left. */
  lemma CompareKeepsPlain(s: State, compare: Option<Sides>, capacity: nat)
    ensures Plain(Step(s, SetCompare(compare), capacity).slots) == Plain(s.slots)
    ensures compare != s.compare ==> Step(s, SetCompare(compare), capacity).slots == Plain(s.slots)
  {
    PlainOnly(s.slots);
  }

  /** While no comparison is active every entry is untagged. */
  lemma UncomparedPlain(s: State, capacity: nat)
    requires Valid(s, capacity) && s.compare == None
    ensures Plain(s.slots) == s.slots
  {
    PlainStays(s.slots);
  }

  /** However comparisons come and go with no trace between, the untagged entries stay as they
      were: a store begun and ended without a comparison is the same. */
  lemma {:induction false} ComparisonsLeaveStore(s: State, events: seq<Event>, capacity: nat)
    requires Valid(s, capacity) && forall i :: 0 <= i < |events| ==> events[i].SetCompare?
    ensures Valid(After(s, events, capacity), capacity)
    ensures Plain(After(s, events, capacity).slots) == Plain(s.slots)
    ensures s.compare == None && After(s, events, capacity).compare == None ==>
      After(s, events, capacity).slots == s.slots
  {
    hide Valid, Plain;
    if events != [] {
      var front, e := events[..|events| - 1], events[|events| - 1];
      ComparisonsLeaveStore(s, front, capacity);
      StepKeepsValid(After(s, front, capacity), e, capacity);
      CompareKeepsPlain(After(s, front, capacity), e.compare, capacity);
    }
    if s.compare == None && After(s, events, capacity).compare == None {
      UncomparedPlain(s, capacity);
      UncomparedPlain(After(s, events, capacity), capacity);
    }
  }

  lemma {:induction false} AfterConcat(s: State, a: seq<Event>, b: seq<Event>, capacity: nat)
    ensures After(s, a + b, capacity) == After(After(s, a, capacity), b, capacity)
    decreases |b|
  {
    hide Step;
    if b == [] {
      assert a + b == a;
    } else {
      assert (a + b)[..|a + b| - 1] == a + b[..|b| - 1];
      AfterConcat(s, a, b[..|b| - 1], capacity);
    }
  }

  lemma {:induction false} RunValid(s: State, events: seq<Event>, capacity: nat)
    requires Valid(s, capacity)
    ensures Valid(After(s, events, capacity), capacity)
  {
    hide Valid, Step;
    if events != [] {
      var front := events[..|events| - 1];
      RunValid(s, front, capacity);
      StepKeepsValid(After(s, front, capacity), events[|events| - 1], capacity);
    }
  }

  /** The store across a change of sides: of the last `capacity` keys by latest update before
      it, those untagged, and then the updates since. */
  lemma StoreAcrossSides(s: State, before: seq<Event>, compare: Option<Sides>, after: seq<Event>, capacity: nat)
    requires Valid(s, capacity) && SidesKept(before, s.compare)
    requires compare != s.compare && SidesKept(after, compare)
    ensures var kept := Plain(TraceFeed.Last(Latest(s.slots + Updates(before, s.compare)), capacity));
            After(s, before + [SetCompare(compare)] + after, capacity)
            == State(TraceFeed.Last(Latest(kept + Updates(after, compare)), capacity), compare)
  {
    hide Valid, Latest, Updates, Plain;
    var change := [SetCompare(compare)];
    var s1 := After(s, before, capacity);
    StoreKeepsLatest(s, before, capacity);
    RunValid(s, before, capacity);
    var s2 := After(s1, change, capacity);
    OneStep(s1, change[0], capacity);
    CompareKeepsPlain(s1, compare, capacity);
    StepKeepsValid(s1, change[0], capacity);
    StoreKeepsLatest(s2, after, capacity);
    AfterConcat(s, before, change, capacity);
    AfterConcat(s, before + change, after, capacity);
  }

  lemma OneStep(s: State, e: Event, capacity: nat)
    ensures After(s, [e], capacity) == Step(s, e, capacity)
  {
    assert [e][..0] == [] && After(s, [], capacity) == s;
  }

  /** A trace received while the sides of `spec` are compared stands last, under its side's name
      and tagged with it: the right's where it is what the right shows, else the left's where it
      is what the left shows; and any other, or one received without a comparison, stands under
      its plain key, untagged. */
  lemma TraceStandsLast(s: State, trace: Trace, capacity: nat, spec: Spec, active: string, datetime: Option<string>)
    requires capacity > 0 && (s.compare == None || s.compare == Some(CompareSides(spec, active, datetime)))
    ensures var slots, plain := Step(s, OnTrace(trace), capacity).slots, trace.layer + "/" + trace.tile;
            var right := if spec.mode == Date then trace.layer == active && trace.requested == Some(spec.value)
                         else trace.layer == spec.value;
            var left := trace.layer == active && (spec.mode == Date ==> trace.requested == datetime);
            slots != [] && slots[|slots| - 1] ==
              if s.compare == None || (!right && !left) then Slot(plain, Entry(trace, None))
              else if right then Slot("right:" + plain, Entry(trace, Some(Right)))
              else Slot("left:" + plain, Entry(trace, Some(Left)))
  {
    hide CompareSides, TraceSide, Without;
    SideOfTrace(spec, active, datetime, trace.layer, trace.requested);
    var slot := SlotOf(s.compare, trace);
    var all := Without(s.slots, slot.key) + [slot];
    assert Step(s, OnTrace(trace), capacity).slots == TraceFeed.Last(all, capacity);
    assert "right:" + (trace.layer + "/" + trace.tile) == "right:" + trace.layer + "/" + trace.tile;
    assert "left:" + (trace.layer + "/" + trace.tile) == "left:" + trace.layer + "/" + trace.tile;
  }

  // ----- The overlay -----

  class Overlay {
    const capacity: nat
    var store: seq<Slot>
    var compare: Option<Sides>

    function Now(): State
      reads this
    {
      State(store, compare)
    }

    constructor (capacity: nat)
      ensures this.capacity == capacity && Now() == State([], None) && Valid(Now(), capacity)
    {
      this.capacity, store, compare := capacity, [], None;
    }

    /** Deletes the key and inserts it again, latest, then evicts the oldest over the
        capacity. */
    method OnTrace(trace: Trace)
      requires Valid(Now(), capacity)
      modifies this
      ensures Now() == Step(old(Now()), Event.OnTrace(trace), capacity) && Valid(Now(), capacity)
    {
      hide Valid, Without, KeyOf, TraceSide;
      StepKeepsValid(Now(), Event.OnTrace(trace), capacity);
      var side := if compare.Some? then TraceSide(compare.value, trace.layer, trace.requested) else None;
      var key := KeyOf(side, trace);
      store := Without(store, key);
      store := store + [Slot(key, Entry(trace, side))];
      ghost var all := store;
      while |store| > capacity
        invariant |store| <= |all| && store == all[|all| - |store|..]
        invariant |all| <= capacity ==> store == all
        invariant |all| > capacity ==> |store| >= capacity
        invariant compare == old(compare)
      {
        store := store[1..];
      }
    }

    /** Takes the tagged entries out, one by one. */
    method PurgeTagged()
      requires DistinctKeys(store)
      modifies this`store
      ensures store == Plain(old(store))
    {
      hide *;
      var slots := store;
      PurgeBegins(slots);
      for i := 0 to |slots|
        invariant store == Purged(slots, i)
      {
        PurgeStep(slots, i);
        if slots[i].entry.side.Some? {
          store := Without(store, slots[i].key);
        }
      }
    }

    /** A change of sides purges the tagged entries. */
    method SetCompare(compare: Option<Sides>)
      requires Valid(Now(), capacity)
      modifies this
      ensures Now() == Step(old(Now()), Event.SetCompare(compare), capacity) && Valid(Now(), capacity)
      ensures Plain(store) == old(Plain(store)) && (compare == old(this.compare) ==> store == old(store))
    {
      hide DistinctKeys, Tagged, Plain;
      CompareKeepsPlain(Now(), compare, capacity);
      StepKeepsValid(Now(), Event.SetCompare(compare), capacity);
      var previous := this.compare;
      this.compare := compare;
      if previous != compare {
        PurgeTagged();
      }
    }
  }

  /** The slots once the first `i` have been looked at. */
  function Purged(slots: seq<Slot>, i: nat): seq<Slot>
    requires i <= |slots|
  {
    Plain(slots[..i]) + slots[i..]
  }

  lemma PurgeBegins(slots: seq<Slot>)
    ensures Purged(slots, 0) == slots && Purged(slots, |slots|) == Plain(slots)
  {
    assert slots[..0] == [] && slots[..|slots|] == slots;
  }

  lemma PurgeStep(slots: seq<Slot>, i: nat)
    requires DistinctKeys(slots) && i < |slots|
    ensures Purged(slots, i + 1)
         == if slots[i].entry.side.Some? then Without(Purged(slots, i), slots[i].key) else Purged(slots, i)
  {
    hide DistinctKeys, Plain, Without;
    PlainSnoc(slots, i);
    if slots[i].entry.side.Some? { DeleteTagged(slots, i); }
  }

  lemma {:induction false} PlainConcat(a: seq<Slot>, b: seq<Slot>)
    ensures Plain(a + b) == Plain(a) + Plain(b)
  {
    if a == [] {
      assert a + b == b;
    } else {
      assert (a + b)[1..] == a[1..] + b;
      PlainConcat(a[1..], b);
    }
  }

  lemma PlainSnoc(slots: seq<Slot>, i: nat)
    requires i < |slots|
    ensures Plain(slots[..i + 1]) == Plain(slots[..i]) + if slots[i].entry.side.Some? then [] else [slots[i]]
  {
    assert slots[..i + 1] == slots[..i] + [slots[i]];
    PlainConcat(slots[..i], [slots[i]]);
    assert [slots[i]][1..] == [];
  }

  lemma DeleteTagged(slots: seq<Slot>, i: nat)
    requires DistinctKeys(slots) && i < |slots|
    ensures Without(Plain(slots[..i]) + slots[i..], slots[i].key) == Plain(slots[..i]) + slots[i + 1..]
  {
    hide DistinctKeys, Plain;
    var key := slots[i].key;
    var before, after := Plain(slots[..i]), slots[i + 1..];
    OthersAbsent(slots, i);
    AbsentStays(before, key);
    AbsentStays(after, key);
    assert slots[i..] == [slots[i]] + after;
    assert Without(slots[i..], key) == after by { assert slots[i..][1..] == after; }
    WithoutConcat(before, slots[i..], key);
  }

  lemma OthersAbsent(slots: seq<Slot>, i: nat)
    requires DistinctKeys(slots) && i < |slots|
    ensures forall slot :: slot in Plain(slots[..i]) ==> slot.key != slots[i].key
    ensures forall slot :: slot in slots[i + 1..] ==> slot.key != slots[i].key
  {
    hide Plain;
    PlainKeeps(slots[..i]);
    forall slot | slot in slots[..i]
      ensures slot.key != slots[i].key
    {
      var j :| 0 <= j < i && slots[j] == slot;
    }
    forall slot | slot in slots[i + 1..]
      ensures slot.key != slots[i].key
    {
      var j :| i < j < |slots| && slots[j] == slot;
    }
  }
}
