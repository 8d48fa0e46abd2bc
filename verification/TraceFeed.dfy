/** The pausable trace feed of web/src/swath-xray.ts: the last 200 lines, however often it
    is paused. */
module TraceFeed {
  const FEED_CAPACITY := 200

  /** The last `n` items, or all when there are fewer. */
  function Last<T>(items: seq<T>, n: nat): (r: seq<T>)
    ensures |r| == if |items| <= n then |items| else n
  {
    if |items| <= n then items else items[|items| - n..]
  }

  datatype State<T> = State(lines: seq<T>, pending: seq<T>, dropped: nat, paused: bool)

  datatype Event<T> = Append(line: T) | TogglePause

  function Trimmed<T>(s: State<T>): State<T> {
    s.(lines := Last(s.lines, FEED_CAPACITY), dropped := s.dropped + |s.lines| - |Last(s.lines, FEED_CAPACITY)|)
  }

  function PendingTrimmed<T>(s: State<T>): State<T> {
    s.(pending := Last(s.pending, FEED_CAPACITY), dropped := s.dropped + |s.pending| - |Last(s.pending, FEED_CAPACITY)|)
  }

  function Step<T>(s: State<T>, e: Event<T>): State<T> {
    match e
    case Append(line) =>
      if s.paused then PendingTrimmed(s.(pending := s.pending + [line]))
      else Trimmed(s.(lines := s.lines + [line]))
    case TogglePause =>
      if s.paused then Trimmed(s.(lines := s.lines + s.pending, pending := [], paused := false))
      else s.(paused := true)
  }

  /** The state after `events`, from an empty running feed. */
  function After<T>(events: seq<Event<T>>): State<T> {
    if events == [] then State([], [], 0, false)
    else Step(After(events[..|events| - 1]), events[|events| - 1])
  }

  /** The lines received. */
  function Received<T>(events: seq<Event<T>>): seq<T> {
    if events == [] then []
    else
      var e := events[|events| - 1];
      Received(events[..|events| - 1]) + if e.Append? then [e.line] else []
  }

  /** The lines received when what is shown was last brought up to date: all, while the feed
      runs; those before the pause, while it is paused. */
  function Seen<T>(events: seq<Event<T>>): seq<T> {
    if events == [] then []
    else
      var front, e := events[..|events| - 1], events[|events| - 1];
      if After(front).paused && e.Append? then Seen(front) else Received(events)
  }

  lemma LastOfLast<T>(a: seq<T>, b: seq<T>, n: nat)
    ensures Last(Last(a, n) + Last(b, n), n) == Last(a + b, n)
  {
    var whole, parts := Last(a + b, n), Last(Last(a, n) + Last(b, n), n);
    assert |whole| == |parts|;
    forall i | 0 <= i < |whole|
      ensures whole[i] == parts[i]
    {
    }
  }

  lemma LastSnoc<T>(a: seq<T>, x: T, n: nat)
    ensures Last(Last(a, n) + [x], n) == Last(a + [x], n)
  {
    LastOfLast(a, [x], n);
    if n == 0 { assert Last(a + [x], n) == []; }
  }

  /** The feed's state, given what was received and what of it was seen. */
  ghost predicate Shows<T>(s: State<T>, received: seq<T>, seen: seq<T>) {
    |s.lines| + |s.pending| + s.dropped == |received| &&
    seen <= received &&
    s.lines == Last(seen, FEED_CAPACITY) &&
    s.pending == Last(received[|seen|..], FEED_CAPACITY) &&
    (!s.paused ==> seen == received)
  }

  lemma StepShows<T>(s: State<T>, e: Event<T>, received: seq<T>, seen: seq<T>)
    requires Shows(s, received, seen)
    ensures var received' := received + if e.Append? then [e.line] else [];
            Shows(Step(s, e), received', if s.paused && e.Append? then seen else received')
  {
    match e
    case Append(line) =>
      if s.paused {
        assert (received + [line])[|seen|..] == received[|seen|..] + [line];
        LastSnoc(received[|seen|..], line, FEED_CAPACITY);
      } else {
        LastSnoc(received, line, FEED_CAPACITY);
      }
    case TogglePause =>
      assert received + [] == received;
      if s.paused {
        assert seen + received[|seen|..] == received;
        LastOfLast(seen, received[|seen|..], FEED_CAPACITY);
      }
  }

  /** However often the feed was paused and however far its queue overflowed: while it runs
      the lines shown are exactly the last 200 received; while it is paused they are the
      last 200 received before the pause, and the queue is the last 200 since; and every
      line received is shown, queued or counted as dropped. */
  lemma {:induction false} FeedShowsLatest<T>(events: seq<Event<T>>)
    ensures Shows(After(events), Received(events), Seen(events))
    ensures !After(events).paused ==> After(events).lines == Last(Received(events), 200) && After(events).pending == []
    ensures After(events).paused ==>
      |Seen(events)| <= |Received(events)| && After(events).lines == Last(Seen(events), 200) &&
      After(events).pending == Last(Received(events)[|Seen(events)|..], 200)
  {
    if events != [] {
      var front, e := events[..|events| - 1], events[|events| - 1];
      FeedShowsLatest(front);
      StepShows(After(front), e, Received(front), Seen(front));
    }
  }

  /** The feed of the overlay. */
  class Feed<T> {
    var lines: seq<T>
    var pending: seq<T>
    var dropped: nat
    var paused: bool

    function Now(): State<T>
      reads this
    {
      State(lines, pending, dropped, paused)
    }

    constructor ()
      ensures Now() == After([])
    {
      lines, pending, dropped, paused := [], [], 0, false;
    }

    /** Drops the oldest lines over the bound. */
    method Trim()
      modifies this
      ensures Now() == Trimmed(old(Now()))
    {
      while |lines| > FEED_CAPACITY
        invariant |lines| <= |old(lines)| && lines == old(lines)[|old(lines)| - |lines|..]
        invariant |old(lines)| <= FEED_CAPACITY ==> lines == old(lines)
        invariant |old(lines)| > FEED_CAPACITY ==> |lines| >= FEED_CAPACITY
        invariant dropped == old(dropped) + |old(lines)| - |lines|
        invariant pending == old(pending) && paused == old(paused)
      {
        lines := lines[1..];
        dropped := dropped + 1;
      }
    }

    /** Takes a line through the pause gate. */
    method Append(line: T)
      modifies this
      ensures Now() == Step(old(Now()), Event.Append(line))
    {
      if paused {
        pending := pending + [line];
        ghost var queued := pending;
        while |pending| > FEED_CAPACITY
          invariant |pending| <= |queued| && pending == queued[|queued| - |pending|..]
          invariant |queued| <= FEED_CAPACITY ==> pending == queued
          invariant |queued| > FEED_CAPACITY ==> |pending| >= FEED_CAPACITY
          invariant dropped == old(dropped) + |queued| - |pending|
          invariant lines == old(lines) && paused
        {
          pending := pending[1..];
          dropped := dropped + 1;
        }
        return;
      }
      lines := lines + [line];
      Trim();
    }

    /** Pauses, or resumes with the queued lines. */
    method TogglePause()
      modifies this
      ensures Now() == Step(old(Now()), Event.TogglePause)
    {
      paused := !paused;
      if !paused {
        var queued := pending;
        pending := [];
        for i := 0 to |queued|
          invariant lines == old(lines) + queued[..i]
          invariant pending == [] && !paused && dropped == old(dropped)
        {
          lines := lines + [queued[i]];
        }
        Trim();
      }
    }
  }
}
