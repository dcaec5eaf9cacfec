/** A client's event feed: committed events are replayed, then spliced with the live broadcast,
    while the store goes on committing. */
module Feed {
  import opened Wrappers

  const FEED_CAPACITY := 4096
  const REPLAY_PAGE := 500
  const MAX_REPLAY := 10_000

  datatype Event = Event(number: int, payload: string)

  datatype Frame = Delivered(event: Event) | Lagged(resumeAfter: int)

  type Log = seq<Event>

  /** Sequence numbers are positive and grow. */
  predicate Sorted(log: Log) {
    && (forall i :: 0 <= i < |log| ==> log[i].number > 0)
    && forall i, j :: 0 <= i < j < |log| ==> log[i].number < log[j].number
  }

  /** How many events have a sequence number up to `a`. */
  function UpTo(log: Log, a: int): (n: nat)
    ensures n <= |log|
    ensures Sorted(log) ==> forall i :: 0 <= i < |log| ==> (i < n <==> log[i].number <= a)
  {
    if log == [] then 0
    else if log[|log| - 1].number <= a then |log|
    else UpTo(log[..|log| - 1], a)
  }

  lemma UpToOrder(log: Log, a: int, b: int)
    requires Sorted(log) && a <= b
    ensures UpTo(log, a) <= UpTo(log, b)
  {
    if UpTo(log, b) < |log| {
      assert log[UpTo(log, b)].number > b;
    }
  }

  /** The events with sequence numbers above `a` and up to `b`, in order. */
  ghost function Between(log: Log, a: int, b: int): Log
    requires Sorted(log) && a <= b
  {
    UpToOrder(log, a, b);
    log[UpTo(log, a)..UpTo(log, b)]
  }

  lemma UpToIs(log: Log, a: int, n: nat)
    requires Sorted(log) && n <= |log|
    requires n > 0 ==> log[n - 1].number <= a
    requires n < |log| ==> a < log[n].number
    ensures UpTo(log, a) == n
  {
    var m: int := UpTo(log, a);
    SortedPair(log, m, n - 1);
    SortedPair(log, n, m - 1);
  }

  lemma SortedPair(log: Log, i: int, j: int)
    requires Sorted(log)
    ensures 0 <= i <= j < |log| ==> log[i].number <= log[j].number
  {
  }

  /** Each event between the two is in it, once and in order, and no other. */
  lemma BetweenIs(log: Log, a: int, b: int)
    requires Sorted(log) && a <= b
    ensures Sorted(Between(log, a, b))
    ensures forall event :: event in Between(log, a, b) <==> event in log && a < event.number <= b
  {
    hide UpTo;
    UpToMeans(log, a);
    UpToMeans(log, b);
    UpToOrder(log, a, b);
    var i, j := UpTo(log, a), UpTo(log, b);
    assert forall k :: 0 <= k < j - i ==> log[i..j][k] == log[i + k];
    forall event | event in log && a < event.number <= b ensures event in log[i..j] {
      var k :| 0 <= k < |log| && log[k] == event;
      assert log[i..j][k - i] == event;
    }
  }

  lemma BetweenJoins(log: Log, a: int, b: int, c: int)
    requires Sorted(log) && a <= b <= c
    ensures Between(log, a, b) + Between(log, b, c) == Between(log, a, c)
  {
    hide UpTo;
    UpToOrder(log, a, b);
    UpToOrder(log, b, c);
    SlicesJoin(log, UpTo(log, a), UpTo(log, b), UpTo(log, c));
  }

  lemma SlicesJoin(log: Log, i: nat, j: nat, k: nat)
    requires i <= j <= k <= |log|
    ensures log[i..j] + log[j..k] == log[i..k]
  {
  }

  /** `b` is where delivery started or the last event delivered. */
  ghost predicate Reached(log: Log, a: int, b: int) {
    a <= b && (a < b ==> exists i :: 0 <= i < |log| && log[i].number == b)
  }

  /** What was delivered stays what is between, whatever is committed later. */
  lemma BetweenStays(log: Log, longer: Log, a: int, b: int)
    requires Sorted(longer) && log <= longer && Sorted(log) && Reached(log, a, b)
    ensures Reached(longer, a, b) && Between(longer, a, b) == Between(log, a, b)
  {
    hide UpTo;
    assert forall k :: 0 <= k < |log| ==> longer[k] == log[k];
    if a < b {
      var i :| 0 <= i < |log| && log[i].number == b;
      UpToIs(log, b, i + 1);
      UpToIs(longer, b, i + 1);
      UpToMeans(log, a);
      var n := UpTo(log, a);
      UpToIs(longer, a, n);
      assert longer[n..i + 1] == log[n..i + 1];
    } else {
      ReachedStart(log, a);
      ReachedStart(longer, a);
    }
  }

  lemma AllBehind(log: Log, a: int)
    requires Sorted(log) && UpTo(log, a) == |log|
    ensures forall i :: 0 <= i < |log| ==> log[i].number <= a
  {
  }

  /** The next page after `cursor` is what lies between it and the page's last event. */
  lemma PageReached(log: Log, page: Log, a: int, cursor: int, next: int)
    requires Sorted(log) && Reached(log, a, cursor)
    requires var n := UpTo(log, cursor); n + |page| <= |log| && page == log[n..n + |page|] && UpTo(log, next) == n + |page|
    requires next == if page == [] then cursor else page[|page| - 1].number
    ensures cursor <= next && Reached(log, a, next) && Between(log, cursor, next) == page
    ensures |Between(log, a, next)| == |Between(log, a, cursor)| + |page|
    ensures Frames(Between(log, a, next)) == Frames(Between(log, a, cursor)) + Frames(Between(log, cursor, next))
  {
    hide UpTo;
    if page != [] {
      assert log[UpTo(log, cursor) + |page| - 1].number == next;
      UpToMeans(log, cursor);
    }
    BetweenJoins(log, a, cursor, next);
  }

  lemma ReachedStart(log: Log, a: int)
    requires Sorted(log)
    ensures Reached(log, a, a) && Between(log, a, a) == []
  {
  }

  lemma BetweenOne(log: Log, a: int, place: nat)
    requires Sorted(log) && place < |log| && a < log[place].number
    requires forall i :: 0 <= i < place ==> log[i].number <= a
    ensures Between(log, a, log[place].number) == [log[place]]
  {
    UpToIs(log, a, place);
    UpToIs(log, log[place].number, place + 1);
  }

  lemma UpToMeans(log: Log, a: int)
    requires Sorted(log)
    ensures forall i :: 0 <= i < |log| ==> (i < UpTo(log, a) <==> log[i].number <= a)
  {
  }

  /** The committed log, and how much of it was broadcast: commit first, broadcast after. */
  class Store {
    var log: Log
    var broadcast: nat

    ghost predicate Valid()
      reads this
    {
      Sorted(log) && broadcast <= |log|
    }

    constructor ()
      ensures Valid() && log == [] && broadcast == 0
    {
      log, broadcast := [], 0;
    }

    /** Meanwhile: the writer may commit and broadcast. */
    method Await()
      requires Valid()
      modifies this
      ensures Valid() && old(log) <= log && old(broadcast) <= broadcast
    {
      var more: Log := *;
      var sent: nat := *;
      if Sorted(log + more) {
        log := log + more;
      }
      if broadcast <= sent <= |log| {
        broadcast := sent;
      }
    }

    /** At most `limit` events after `cursor`, or a failure. */
    method ReadSince(cursor: int, limit: nat) returns (page: Result<Log>)
      requires Valid()
      modifies this
      ensures Valid() && old(log) <= log && old(broadcast) <= broadcast
      ensures page.Ok? ==>
        var n := UpTo(log, cursor);
        page.value == log[n..if n + limit < |log| then n + limit else |log|]
    {
      Await();
      var fails: bool := *;
      if fails {
        return Err(Invalid);
      }
      var n := UpTo(log, cursor);
      return Ok(log[n..if n + limit < |log| then n + limit else |log|]);
    }
  }

  function Frames(events: Log): seq<Frame> {
    seq(|events|, i requires 0 <= i < |events| => Delivered(events[i]))
  }

  function EventsOf(frames: seq<Frame>): Log {
    if frames == [] then []
    else
      var last := frames[|frames| - 1];
      EventsOf(frames[..|frames| - 1]) + (if last.Delivered? then [last.event] else [])
  }

  lemma {:induction false} EventsJoin(a: seq<Frame>, b: seq<Frame>)
    ensures EventsOf(a + b) == EventsOf(a) + EventsOf(b)
  {
    if b == [] {
      assert a + b == a;
    } else {
      EventsJoin(a, b[..|b| - 1]);
      assert (a + b)[..|a + b| - 1] == a + b[..|b| - 1];
    }
  }

  lemma {:induction false} EventsOfFrames(events: Log)
    ensures EventsOf(Frames(events)) == events
  {
    if events != [] {
      EventsOfFrames(events[..|events| - 1]);
      assert Frames(events)[..|events| - 1] == Frames(events[..|events| - 1]);
    }
  }

  /** One client's connection. `feed` is its place in the broadcast, once subscribed. */
  class Session {
    const store: Store
    var frames: seq<Frame>
    var lastSent: int
    var feed: Option<nat>

    constructor (store: Store)
      ensures this.store == store && frames == [] && lastSent == 0 && feed == None
    {
      this.store := store;
      frames, lastSent, feed := [], 0, None;
    }

    /** Everything broadcast before the feed's place is behind `lastSent`. */
    ghost predicate NoGap()
      reads this, store
    {
      feed.Some? ==> feed.value <= store.broadcast && forall i :: 0 <= i < feed.value && i < |store.log| ==> store.log[i].number <= lastSent
    }

    /** The frames from `start` on brought exactly the events above `after`, up to `lastSent`. */
    ghost predicate Exact(start: nat, after: int)
      reads this, store
      requires Sorted(store.log)
    {
      && start <= |frames|
      && Reached(store.log, after, lastSent)
      && EventsOf(frames[start..]) == Between(store.log, after, lastSent)
    }

    /** Joins the broadcast, then reads pages of the log up to where it was then; live from there. */
    method Subscribe(afterSeq: int) returns (r: Result<int>)
      requires store.Valid()
      modifies this, store
      ensures store.Valid() && old(store.log) <= store.log
      ensures r.Err? ==>
        var after := if afterSeq > 0 then afterSeq else 0;
        && lastSent == old(lastSent) && feed == old(feed)
        && exists cursor :: Reached(store.log, after, cursor) && frames == old(frames) + Frames(Between(store.log, after, cursor))
      ensures r.Ok? ==> r.value == lastSent && NoGap()
      ensures r.Ok? ==>
        var after := if afterSeq > 0 then afterSeq else 0;
        && after <= lastSent && Reached(store.log, after, lastSent)
        && frames == old(frames) + Frames(Between(store.log, after, lastSent)) + (if feed.None? then [Lagged(lastSent)] else [])
        && feed == if |Between(store.log, after, lastSent)| >= MAX_REPLAY then None else Some(old(store.broadcast))
    {
      hide UpTo, Sorted, Between, Reached;
      var place := store.broadcast;
      var after := if afterSeq > 0 then afterSeq else 0;
      var cursor := after;
      var replayed := 0;
      ghost var before := frames;
      ReachedStart(store.log, after);
      while true
        invariant store.Valid() && old(store.log) <= store.log && place <= store.broadcast && place <= |old(store.log)|
        invariant lastSent == old(lastSent) && feed == old(feed)
        invariant after <= cursor && Reached(store.log, after, cursor)
        invariant frames == before + Frames(Between(store.log, after, cursor))
        invariant replayed == |Between(store.log, after, cursor)| < MAX_REPLAY && replayed % REPLAY_PAGE == 0
        decreases MAX_REPLAY - replayed
      {
        ghost var log := store.log;
        ghost var sent := Frames(Between(log, after, cursor));
        var read := store.ReadSince(cursor, REPLAY_PAGE);
        BetweenStays(log, store.log, after, cursor);
        if read.Err? {
          assert Reached(store.log, after, cursor);
          return Err(read.error);
        }
        var page := read.value;
        cursor := Replay(page, after, cursor);
        replayed := replayed + |page|;
        if |page| < REPLAY_PAGE {
          AllBehind(store.log, cursor);
          break;
        }
        if replayed >= MAX_REPLAY {
          lastSent, feed := cursor, None;
          frames := frames + [Lagged(cursor)];
          return Ok(cursor);
        }
      }
      lastSent, feed := cursor, Some(place);
      return Ok(cursor);
    }

    /** Writes a page's events. */
    method Replay(page: Log, ghost after: int, cursor: int) returns (next: int)
      requires store.Valid() && Reached(store.log, after, cursor)
      requires var n := UpTo(store.log, cursor); n + |page| <= |store.log| && page == store.log[n..n + |page|]
      modifies this`frames
      ensures Reached(store.log, after, next) && next == if page == [] then cursor else page[|page| - 1].number
      ensures UpTo(store.log, next) == UpTo(store.log, cursor) + |page|
      ensures cursor <= next && frames == old(frames) + Frames(Between(store.log, cursor, next))
      ensures |Between(store.log, after, next)| == |Between(store.log, after, cursor)| + |page|
      ensures Frames(Between(store.log, after, next)) == Frames(Between(store.log, after, cursor)) + Frames(Between(store.log, cursor, next))
    {
      hide UpTo;
      next := cursor;
      ghost var n := UpTo(store.log, cursor);
      for i := 0 to |page|
        invariant frames == old(frames) + Frames(page[..i])
        invariant next == if i == 0 then cursor else page[i - 1].number
        invariant UpTo(store.log, next) == n + i
      {
        next := page[i].number;
        assert page[i] == store.log[n + i];
        UpToIs(store.log, next, n + i + 1);
        assert Frames(page[..i + 1]) == Frames(page[..i]) + [Delivered(page[i])];
        frames := frames + [Delivered(page[i])];
      }
      assert page[..|page|] == page;
      PageReached(store.log, page, after, cursor, next);
    }

    /** What the broadcast holds next for this client, if anything: an event, or that it lags too far. */
    method TakeNext()
      requires store.Valid() && NoGap() && lastSent >= 0
      modifies this
      ensures NoGap() && lastSent >= old(lastSent)
      ensures Reached(store.log, old(lastSent), lastSent)
      ensures
        if old(feed.Some? && store.broadcast - feed.value > FEED_CAPACITY) then
          feed == None && lastSent == old(lastSent) && frames == old(frames) + [Lagged(lastSent)]
        else
          && frames == old(frames) + Frames(Between(store.log, old(lastSent), lastSent))
          && (old(feed.Some? && feed.value < store.broadcast) ==> feed == Some(old(feed).value + 1))
          && (!old(feed.Some? && feed.value < store.broadcast) ==> feed == old(feed))
    {
      hide UpTo, Between;
      ReachedStart(store.log, lastSent);
      if feed.None? || feed.value == store.broadcast {
        return;
      }
      if store.broadcast - feed.value > FEED_CAPACITY {
        feed := None;
        frames := frames + [Lagged(lastSent)];
        return;
      }
      var place := feed.value;
      var event := store.log[place];
      if event.number > lastSent {
        BetweenOne(store.log, lastSent, place);
        lastSent, feed := event.number, Some(place + 1);
        frames := frames + [Delivered(event)];
      } else {
        feed := Some(place + 1);
      }
    }

    /** A client that subscribes, and subscribes again from `resumeAfter` whenever it is cut off,
        is sent exactly the events above `afterSeq`, in order and once, whatever is committed,
        broadcast or lost meanwhile. */
    method Follow(afterSeq: int, turns: nat) returns (r: Result<int>, ghost start: nat)
      requires store.Valid()
      modifies this, store
      ensures store.Valid()
      ensures r.Ok? ==> r.value == lastSent && NoGap()
      ensures r.Ok? ==> Exact(start, if afterSeq > 0 then afterSeq else 0)
    {
      hide UpTo, Sorted, Between, Reached, EventsOf, Frames;
      start := |frames|;
      ghost var after := if afterSeq > 0 then afterSeq else 0;
      r := Subscribe(afterSeq);
      if r.Ok? {
        assert frames[start..] == [] + Frames(Between(store.log, after, lastSent)) + (if feed.None? then [Lagged(lastSent)] else []);
        Started(store.log, after);
        Appended([], frames[start..], store.log, after, after, lastSent, feed.None?);
      }
      for turn := 0 to turns
        invariant store.Valid()
        invariant r.Ok? ==> NoGap() && lastSent >= after && Exact(start, after) && r.value == lastSent
      {
        if r.Ok? {
          r := Turn(start, after);
        }
      }
    }

    /** Subscribes again when cut off; otherwise waits, or takes what the broadcast holds. */
    method Turn(ghost start: nat, ghost after: int) returns (r: Result<int>)
      requires store.Valid() && NoGap() && lastSent >= after >= 0 && Exact(start, after)
      modifies this, store
      ensures store.Valid()
      ensures r.Ok? ==> NoGap() && lastSent >= after && Exact(start, after) && r.value == lastSent
    {
      hide UpTo, Sorted, Between, Reached, EventsOf, Frames;
      ghost var log, before, from := store.log, frames[start..], lastSent;
      var waits: bool := *;
      if feed.None? {
        r := Subscribe(lastSent);
        BetweenStays(log, store.log, after, from);
        if r.Ok? {
          Appended(before, frames[start..], store.log, after, from, lastSent, feed.None?);
        }
      } else if waits {
        store.Await();
        BetweenStays(log, store.log, after, lastSent);
        r := Ok(lastSent);
      } else {
        TakeNext();
        Appended(before, frames[start..], store.log, after, from, lastSent, feed.None?);
        r := Ok(lastSent);
      }
    }
  }

  /** A feed whose place is at the end of the log has missed nothing: what was delivered is every
      event above `after`. */
  lemma NothingMissed(log: Log, after: int, lastSent: int, place: nat)
    requires Sorted(log) && Reached(log, after, lastSent) && place == |log|
    requires forall i :: 0 <= i < place ==> log[i].number <= lastSent
    ensures Between(log, after, lastSent) == log[UpTo(log, after)..]
    ensures forall event :: event in Between(log, after, lastSent) <==> event in log && after < event.number
  {
    UpToIs(log, lastSent, |log|);
    BetweenIs(log, after, lastSent);
  }

  lemma Started(log: Log, after: int)
    requires Sorted(log)
    ensures Reached(log, after, after) && EventsOf([]) == Between(log, after, after)
  {
  }

  /** Frames sent since `from` add what lies between. */
  lemma Appended(before: seq<Frame>, frames: seq<Frame>, log: Log, after: int, from: int, to: int, cutOff: bool)
    requires Sorted(log) && Reached(log, after, from) && Reached(log, from, to)
    requires EventsOf(before) == Between(log, after, from)
    requires
      var sent := Frames(Between(log, from, to));
      frames == before + sent + (if cutOff then [Lagged(to)] else []) || (cutOff && from == to && frames == before + [Lagged(to)])
    ensures after <= from <= to && Reached(log, after, to) && EventsOf(frames) == Between(log, after, to)
  {
    hide UpTo, EventsOf;
    ReachedTo(log, after, from, to);
    hide Reached;
    var events := Between(log, from, to);
    var sent, lag := Frames(events), if cutOff then [Lagged(to)] else [];
    ReachedStart(log, to);
    BetweenJoins(log, after, from, to);
    EventsOfFrames(events);
    EventsJoin(before, sent);
    EventsJoin(before + sent, lag);
    NoEvents(to);
    assert from == to ==> before + sent == before;
  }

  lemma ReachedTo(log: Log, a: int, b: int, c: int)
    requires Reached(log, a, b) && Reached(log, b, c)
    ensures a <= b <= c && Reached(log, a, c)
  {
  }

  lemma NoEvents(to: int)
    ensures EventsOf([]) == [] && EventsOf([Lagged(to)]) == []
  {
  }
}
