/** Events and the time-ordered event queue the renderer drains.

    The queue's own storage is not part of this model; it is represented by
    the sequence of pending events, kept sorted by start time, and the two
    operations the renderer uses: fetch the earliest event inside a time
    window, and add an event in time order. */
module Events {
  import opened Buffers

  datatype Option<T> = None | Some(value: T)

  /** A pending event rendered by the insert-vector handler: starting at
      sample `time` it produces `length` items per channel, the bytes of
      channel `i` being `payload[i]`. */
  datatype Event = Event(time: nat, length: nat, payload: seq<seq<byte>>)

  /** The payload holds exactly `length` items for every channel, channel
      `i` having items of `isz[i]` bytes. */
  predicate WellFormed(e: Event, isz: seq<nat>)
  {
    |e.payload| == |isz| &&
    forall i :: 0 <= i < |isz| ==> |e.payload[i]| == e.length * isz[i]
  }

  predicate InWindow(e: Event, lo: nat, hi: nat)
  {
    lo <= e.time < hi
  }

  predicate Sorted(q: seq<Event>)
  {
    forall i, j :: 0 <= i < j < |q| ==> q[i].time <= q[j].time
  }

  /** Index of the first queued event whose time lies in [lo, hi). */
  function FirstInWindow(q: seq<Event>, lo: nat, hi: nat): (r: Option<nat>)
    ensures r.Some? ==> r.value < |q| && InWindow(q[r.value], lo, hi)
  {
    if q == [] then None
    else if InWindow(q[0], lo, hi) then Some(0)
    else match FirstInWindow(q[1..], lo, hi)
      case None => None
      case Some(k) => Some(k + 1)
  }

  /** FirstInWindow finds the first in-window event, and finds nothing
      exactly when no queued event lies in the window. */
  lemma {:induction false} FirstInWindowSpec(q: seq<Event>, lo: nat, hi: nat)
    ensures var r := FirstInWindow(q, lo, hi);
      (r.Some? ==> forall j :: 0 <= j < r.value ==> !InWindow(q[j], lo, hi)) &&
      (r.None? <==> forall j :: 0 <= j < |q| ==> !InWindow(q[j], lo, hi))
  {
    if q != [] && !InWindow(q[0], lo, hi) {
      FirstInWindowSpec(q[1..], lo, hi);
      assert forall j :: 1 <= j < |q| ==> q[j] == q[1..][j - 1];
    }
  }

  /** In a time-ordered queue the first in-window event is the earliest
      one: no queued event in the window starts before it. */
  lemma FirstIsEarliest(q: seq<Event>, lo: nat, hi: nat)
    requires Sorted(q)
    ensures var r := FirstInWindow(q, lo, hi);
      r.Some? ==> forall e :: e in q && InWindow(e, lo, hi) ==> q[r.value].time <= e.time
  {
    FirstInWindowSpec(q, lo, hi);
  }

  /** The queue without its event at `k`. */
  function RemoveAt(q: seq<Event>, k: nat): (r: seq<Event>)
    requires k < |q|
    ensures |r| + 1 == |q|
  {
    q[..k] + q[k + 1..]
  }

  /** Where an event starting at `t` goes: after every event that starts
      no later than `t`, before the first one that starts after it. */
  function InsertPos(q: seq<Event>, t: nat): (p: nat)
    ensures p <= |q|
  {
    if q == [] || t < q[0].time then 0 else 1 + InsertPos(q[1..], t)
  }

  /** InsertPos is the first position whose event starts after `t`. */
  lemma {:induction false} InsertPosSpec(q: seq<Event>, t: nat)
    ensures var p := InsertPos(q, t);
      (forall j :: 0 <= j < p ==> q[j].time <= t) &&
      (p < |q| ==> t < q[p].time)
  {
    if q != [] && q[0].time <= t {
      InsertPosSpec(q[1..], t);
      assert forall j :: 1 <= j < |q| ==> q[j] == q[1..][j - 1];
    }
  }

  /** The queue with `e` added at its time-ordered position. */
  function Insert(q: seq<Event>, e: Event): (r: seq<Event>)
    ensures |r| == |q| + 1
  {
    var p := InsertPos(q, e.time);
    q[..p] + [e] + q[p..]
  }

  /** Number of queued events whose time lies in [lo, hi). */
  function CountIn(q: seq<Event>, lo: nat, hi: nat): nat
  {
    if q == [] then 0
    else (if InWindow(q[0], lo, hi) then 1 else 0) + CountIn(q[1..], lo, hi)
  }

  /** `a` holds fewer events in [lo, hi) than `b`. */
  predicate Fewer(a: seq<Event>, b: seq<Event>, lo: nat, hi: nat)
  {
    CountIn(a, lo, hi) < CountIn(b, lo, hi)
  }

  lemma {:induction false} CountInAppend(a: seq<Event>, b: seq<Event>, lo: nat, hi: nat)
    ensures CountIn(a + b, lo, hi) == CountIn(a, lo, hi) + CountIn(b, lo, hi)
  {
    if a != [] {
      assert (a + b)[0] == a[0] && (a + b)[1..] == a[1..] + b;
      CountInAppend(a[1..], b, lo, hi);
    } else {
      assert a + b == b;
    }
  }

  /** Removing an in-window event lowers the in-window count by one. */
  lemma RemoveAtCount(q: seq<Event>, k: nat, lo: nat, hi: nat)
    requires k < |q| && InWindow(q[k], lo, hi)
    ensures CountIn(RemoveAt(q, k), lo, hi) + 1 == CountIn(q, lo, hi)
  {
    assert q == q[..k] + ([q[k]] + q[k + 1..]);
    CountInAppend(q[..k], [q[k]] + q[k + 1..], lo, hi);
    CountInAppend([q[k]], q[k + 1..], lo, hi);
    CountInAppend(q[..k], q[k + 1..], lo, hi);
  }

  /** Inserting an event outside the window leaves the in-window count alone. */
  lemma InsertCount(q: seq<Event>, e: Event, lo: nat, hi: nat)
    requires !InWindow(e, lo, hi)
    ensures CountIn(Insert(q, e), lo, hi) == CountIn(q, lo, hi)
  {
    var p := InsertPos(q, e.time);
    assert q == q[..p] + q[p..];
    CountInAppend(q[..p], q[p..], lo, hi);
    CountInAppend(q[..p] + [e], q[p..], lo, hi);
    CountInAppend(q[..p], [e], lo, hi);
  }

  /** Insert adds exactly `e`. */
  lemma InsertContents(q: seq<Event>, e: Event)
    ensures multiset(Insert(q, e)) == multiset(q) + multiset{e}
  {
    var p := InsertPos(q, e.time);
    assert q == q[..p] + q[p..];
  }

  /** Insert keeps a time-ordered queue in time order. */
  lemma InsertSorted(q: seq<Event>, e: Event)
    requires Sorted(q)
    ensures Sorted(Insert(q, e))
  {
    var p := InsertPos(q, e.time);
    InsertPosSpec(q, e.time);
    var r := Insert(q, e);
    assert forall k :: 0 <= k < p ==> r[k] == q[k];
    assert r[p] == e;
    assert forall k :: p < k < |r| ==> r[k] == q[k - 1];
    forall i, j | 0 <= i < j < |r| ensures r[i].time <= r[j].time {
      if i == p && p < j {
        assert q[p].time <= q[j - 1].time;
      } else if j == p {
        assert r[i] == q[i];
      }
    }
  }

  /** Removing the event at `k` keeps the queue in time order and drops
      exactly that event. */
  lemma RemoveAtContents(q: seq<Event>, k: nat)
    requires k < |q|
    ensures Sorted(q) ==> Sorted(RemoveAt(q, k))
    ensures multiset(RemoveAt(q, k)) + multiset{q[k]} == multiset(q)
  {
    assert q == q[..k] + [q[k]] + q[k + 1..];
  }

  /** The queue the renderer fetches from and adds holdover events to. */
  class EventQueue {
    var events: seq<Event>

    ghost predicate Valid()
      reads this
    {
      Sorted(events)
    }

    constructor ()
      ensures Valid() && events == []
    {
      events := [];
    }

    /** Removes and returns the earliest event whose time lies in [lo, hi). */
    method FetchNext(lo: nat, hi: nat) returns (r: Option<Event>)
      requires Valid()
      modifies this
      ensures Valid()
      ensures r.Some? <==> FirstInWindow(old(events), lo, hi).Some?
      ensures r.Some? ==>
        var k := FirstInWindow(old(events), lo, hi).value;
        r.value == old(events)[k] && events == RemoveAt(old(events), k)
      ensures r.Some? ==> InWindow(r.value, lo, hi)
      ensures r.None? ==> events == old(events)
      ensures forall e :: e in events ==> e in old(events)
    {
      var i := 0;
      while i < |events| && !InWindow(events[i], lo, hi)
        invariant i <= |events|
        invariant forall j :: 0 <= j < i ==> !InWindow(events[j], lo, hi)
      {
        i := i + 1;
      }
      if i == |events| {
        FirstInWindowSpec(events, lo, hi);
        r := None;
      } else {
        r := Some(events[i]);
        FirstInWindowSpec(events, lo, hi);
        RemoveAtContents(events, i);
        assert forall e :: e in RemoveAt(events, i) ==> e in multiset(events);
        events := RemoveAt(events, i);
      }
    }

    /** Inserts `e` after every pending event that starts no later than it. */
    method Add(e: Event)
      requires Valid()
      modifies this
      ensures Valid()
      ensures events == Insert(old(events), e)
      ensures multiset(events) == multiset(old(events)) + multiset{e}
    {
      var i := 0;
      while i < |events| && events[i].time <= e.time
        invariant i <= |events|
        invariant forall j :: 0 <= j < i ==> events[j].time <= e.time
      {
        i := i + 1;
      }
      InsertPosSpec(events, e.time);
      assert i == InsertPos(events, e.time);
      InsertContents(events, e);
      InsertSorted(events, e);
      events := events[..i] + [e] + events[i..];
    }
  }
}
