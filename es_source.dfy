/** The event-stream source block: a time cursor, a cap on the total number
    of items, and the `work` call that renders the queued events of each
    window of output into the caller's per-channel byte buffers. */
module EsSource {
  import opened Buffers
  import opened Events
  import opened Fill

  /** The insert-vector handler run on an event whose payload is bound to
      `bufs`: channel `i`'s bytes are written into `bufs[i]` from byte
      `at[i]` on. The handler cannot tell output regions from temporaries. */
  method RunHandler(e: Event, bufs: seq<array<byte>>, at: seq<nat>)
    requires |bufs| == |at| == |e.payload|
    requires forall i :: 0 <= i < |bufs| ==> at[i] + |e.payload[i]| <= bufs[i].Length
    requires forall i, j :: 0 <= i < j < |bufs| ==> bufs[i] != bufs[j]
    modifies bufs
    ensures forall i :: 0 <= i < |bufs| ==>
      bufs[i][..] == Overlay(old(bufs[i][..]), at[i], e.payload[i])
  {
    var c := 0;
    while c < |bufs|
      invariant c <= |bufs|
      invariant forall i :: 0 <= i < c ==>
        bufs[i][..] == Overlay(old(bufs[i][..]), at[i], e.payload[i])
      invariant forall i :: c <= i < |bufs| ==> bufs[i][..] == old(bufs[i][..])
    {
      CopyInto(bufs[c], at[c], e.payload[c]);
      c := c + 1;
    }
  }

  /** Zeroes the first `n` items of every output channel. */
  method ZeroOutputs(outs: seq<array<byte>>, n: nat, isz: seq<nat>)
    requires |outs| == |isz|
    requires forall i :: 0 <= i < |outs| ==> n * isz[i] <= outs[i].Length
    requires forall i, j :: 0 <= i < j < |outs| ==> outs[i] != outs[j]
    modifies outs
    ensures forall i :: 0 <= i < |outs| ==> outs[i][..n * isz[i]] == Zeros(n * isz[i])
    ensures forall i :: 0 <= i < |outs| ==> outs[i][n * isz[i]..] == old(outs[i][n * isz[i]..])
  {
    var c := 0;
    while c < |outs|
      invariant c <= |outs|
      invariant forall i :: 0 <= i < c ==> outs[i][..n * isz[i]] == Zeros(n * isz[i])
      invariant forall i :: 0 <= i < c ==> outs[i][n * isz[i]..] == old(outs[i][n * isz[i]..])
      invariant forall i :: c <= i < |outs| ==> outs[i][..] == old(outs[i][..])
    {
      ZeroFill(outs[c], n * isz[c]);
      c := c + 1;
    }
  }

  class Source {
    /** Bytes per item of each output channel (the output signature). */
    const itemsizes: seq<nat>
    const queue: EventQueue
    /** Absolute index of the first item the next `work` call produces. */
    var time: nat
    /** Total number of items to produce before the stream ends. */
    var maxlen: nat

    ghost predicate Valid()
      reads this, queue
    {
      time <= U64_MAX && maxlen <= U64_MAX &&
      queue.Valid() &&
      forall e :: e in queue.events ==> WellFormed(e, itemsizes)
    }

    constructor (itemsizes: seq<nat>, queue: EventQueue)
      requires queue.Valid()
      requires forall e :: e in queue.events ==> WellFormed(e, itemsizes)
      ensures Valid()
      ensures this.itemsizes == itemsizes && this.queue == queue
      ensures time == 0 && maxlen == U64_MAX
    {
      this.itemsizes := itemsizes;
      this.queue := queue;
      maxlen := U64_MAX;
      time := 0;
    }

    /** time(): the current value of the time cursor. */
    method CurrentTime() returns (t: nat)
      ensures t == time
    {
      t := time;
    }

    /** set_max(): caps the total number of items produced. */
    method SetMax(m: nat)
      requires Valid() && m <= U64_MAX
      modifies this`maxlen
      ensures Valid() && maxlen == m
    {
      maxlen := m;
    }

    /** In-place rendering: the handler writes the event's items straight
        into the output channels, `offset` items in. */
    method RenderInPlace(outs: seq<array<byte>>, n: nat, offset: nat, e: Event, ghost cur: seq<seq<byte>>)
      requires |outs| == |itemsizes|
      requires forall i :: 0 <= i < |outs| ==> n * itemsizes[i] <= outs[i].Length
      requires forall i, j :: 0 <= i < j < |outs| ==> outs[i] != outs[j]
      requires Shaped(cur, n, itemsizes) && WellFormed(e, itemsizes)
      requires e.length + offset < n
      requires forall i :: 0 <= i < |outs| ==> outs[i][..n * itemsizes[i]] == cur[i]
      modifies outs
      ensures forall i :: 0 <= i < |outs| ==>
        outs[i][..n * itemsizes[i]] == RenderChannel(cur[i], itemsizes[i], n, offset, e.length, e.payload[i])
      ensures forall i :: 0 <= i < |outs| ==>
        outs[i][n * itemsizes[i]..] == old(outs[i][n * itemsizes[i]..])
    {
      var at := seq(|outs|, i requires 0 <= i < |outs| => offset * itemsizes[i]);
      forall i | 0 <= i < |outs|
        ensures at[i] + |e.payload[i]| <= n * itemsizes[i]
      {
        MulAdd(offset, e.length, itemsizes[i]);
        MulMono(offset + e.length, n, itemsizes[i]);
      }
      RunHandler(e, outs, at);
      forall i | 0 <= i < |outs|
        ensures outs[i][..n * itemsizes[i]] == RenderChannel(cur[i], itemsizes[i], n, offset, e.length, e.payload[i])
        ensures outs[i][n * itemsizes[i]..] == old(outs[i][n * itemsizes[i]..])
      {
        OverlayPrefix(old(outs[i][..]), n * itemsizes[i], at[i], e.payload[i]);
        assert old(outs[i][..])[..n * itemsizes[i]] == cur[i];
      }
    }

    /** Allocates one temporary buffer of the event's length per channel
        and runs the handler on them: afterwards they hold the event's items. */
    method RenderToTemps(e: Event) returns (bufs: seq<array<byte>>)
      requires WellFormed(e, itemsizes)
      ensures |bufs| == |itemsizes|
      ensures forall i :: 0 <= i < |bufs| ==> fresh(bufs[i])
      ensures forall i, j :: 0 <= i < j < |bufs| ==> bufs[i] != bufs[j]
      ensures forall i :: 0 <= i < |bufs| ==> bufs[i][..] == e.payload[i]
    {
      bufs := [];
      var c := 0;
      while c < |itemsizes|
        invariant c == |bufs| <= |itemsizes|
        invariant forall i :: 0 <= i < c ==> fresh(bufs[i])
        invariant forall i :: 0 <= i < c ==> bufs[i].Length == |e.payload[i]|
        invariant forall i, j :: 0 <= i < j < c ==> bufs[i] != bufs[j]
      {
        var b := new byte[e.length * itemsizes[c]];
        bufs := bufs + [b];
        c := c + 1;
      }
      RunHandler(e, bufs, seq(|bufs|, _ => 0));
      forall i | 0 <= i < |bufs| ensures bufs[i][..] == e.payload[i] {
        assert |bufs[i][..]| == |e.payload[i]|;
      }
    }

    /** One channel of the out-of-place path: the first `n - offset` items of
        the temporary buffer go to the output, `offset` items in; the rest of
        its bytes are returned. */
    method SplitChannel(out: array<byte>, buf: array<byte>, s: nat, n: nat, offset: nat, len: nat,
                        ghost cur: seq<byte>)
      returns (tail: seq<byte>)
      requires out != buf
      requires |cur| == n * s <= out.Length && buf.Length == len * s
      requires offset < n <= len + offset
      requires out[..n * s] == cur
      modifies out
      ensures out[..n * s] == RenderChannel(cur, s, n, offset, len, old(buf[..]))
      ensures out[n * s..] == old(out[n * s..])
      ensures tail == Tail(old(buf[..]), s, len, n - offset)
    {
      var usable := n - offset;
      MulMono(usable, len, s);
      MulAdd(offset, usable, s);
      ghost var data := buf[..];
      CopyInto(out, offset * s, buf[..usable * s]);
      OverlayPrefix(old(out[..]), n * s, offset * s, data[..usable * s]);
      assert old(out[..])[..n * s] == cur;
      tail := buf[usable * s..];
    }

    /** Copies the first `n - offset` items of every temporary buffer into its
        output channel, `offset` items in, and returns the remaining bytes of
        each channel. */
    method SplitTemps(outs: seq<array<byte>>, bufs: seq<array<byte>>, n: nat, offset: nat, e: Event,
                      ghost cur: seq<seq<byte>>)
      returns (rest: seq<seq<byte>>)
      requires |outs| == |itemsizes| == |bufs|
      requires forall i :: 0 <= i < |outs| ==> n * itemsizes[i] <= outs[i].Length
      requires forall i, j :: 0 <= i < j < |outs| ==> outs[i] != outs[j]
      requires forall i, j :: 0 <= i < |outs| && 0 <= j < |bufs| ==> outs[i] != bufs[j]
      requires Shaped(cur, n, itemsizes) && WellFormed(e, itemsizes)
      requires offset < n <= e.length + offset
      requires forall i :: 0 <= i < |bufs| ==> bufs[i][..] == e.payload[i]
      requires forall i :: 0 <= i < |outs| ==> outs[i][..n * itemsizes[i]] == cur[i]
      modifies outs
      ensures |rest| == |itemsizes|
      ensures forall i :: 0 <= i < |outs| ==>
        outs[i][..n * itemsizes[i]] == RenderChannel(cur[i], itemsizes[i], n, offset, e.length, e.payload[i])
      ensures forall i :: 0 <= i < |outs| ==>
        outs[i][n * itemsizes[i]..] == old(outs[i][n * itemsizes[i]..])
      ensures forall i :: 0 <= i < |rest| ==>
        rest[i] == Tail(e.payload[i], itemsizes[i], e.length, n - offset)
    {
      rest := [];
      var c := 0;
      while c < |outs|
        invariant c == |rest| <= |outs|
        invariant forall i :: 0 <= i < c ==>
          outs[i][..n * itemsizes[i]] == RenderChannel(cur[i], itemsizes[i], n, offset, e.length, e.payload[i])
        invariant forall i :: 0 <= i < c ==>
          outs[i][n * itemsizes[i]..] == old(outs[i][n * itemsizes[i]..])
        invariant forall i :: 0 <= i < c ==>
          rest[i] == Tail(e.payload[i], itemsizes[i], e.length, n - offset)
        invariant forall i :: c <= i < |outs| ==> outs[i][..] == old(outs[i][..])
      {
        var tail := SplitChannel(outs[c], bufs[c], itemsizes[c], n, offset, e.length, cur[c]);
        rest := rest + [tail];
        c := c + 1;
      }
    }

    /** Out-of-place rendering: the handler writes into temporary buffers,
        whose first `n - offset` items go to the output and whose remaining
        items become the holdover event returned. */
    method RenderOutOfPlace(outs: seq<array<byte>>, n: nat, e: Event, ghost cur: seq<seq<byte>>)
      returns (holdover: Event)
      requires |outs| == |itemsizes|
      requires forall i :: 0 <= i < |outs| ==> n * itemsizes[i] <= outs[i].Length
      requires forall i, j :: 0 <= i < j < |outs| ==> outs[i] != outs[j]
      requires Shaped(cur, n, itemsizes) && WellFormed(e, itemsizes)
      requires InWindow(e, time, time + n) && n <= e.length + (e.time - time)
      requires forall i :: 0 <= i < |outs| ==> outs[i][..n * itemsizes[i]] == cur[i]
      modifies outs
      ensures holdover == Holdover(e, time, n, itemsizes)
      ensures forall i :: 0 <= i < |outs| ==>
        outs[i][..n * itemsizes[i]] == RenderChannel(cur[i], itemsizes[i], n, e.time - time, e.length, e.payload[i])
      ensures forall i :: 0 <= i < |outs| ==>
        outs[i][n * itemsizes[i]..] == old(outs[i][n * itemsizes[i]..])
    {
      var offset := e.time - time;
      var bufs := RenderToTemps(e);
      var rest := SplitTemps(outs, bufs, n, offset, e, cur);
      var usable := n - offset;
      var leftover := e.length - usable;
      holdover := Event(e.time + usable, leftover, rest);
      assert rest == Holdover(e, time, n, itemsizes).payload;
    }

    /** Renders one fetched event into the output channels, whose first `n`
        items hold `cur`; returns the holdover event, if there is one. */
    method DispatchEvent(outs: seq<array<byte>>, n: nat, e: Event, ghost cur: seq<seq<byte>>, ghost d: Dispatched)
      returns (h: Option<Event>)
      requires |outs| == |itemsizes|
      requires forall i :: 0 <= i < |outs| ==> n * itemsizes[i] <= outs[i].Length
      requires forall i, j :: 0 <= i < j < |outs| ==> outs[i] != outs[j]
      requires Shaped(cur, n, itemsizes) && WellFormed(e, itemsizes)
      requires InWindow(e, time, time + n)
      requires d == Dispatch(cur, e, time, n, itemsizes)
      requires forall i :: 0 <= i < |outs| ==> outs[i][..n * itemsizes[i]] == cur[i]
      modifies outs
      ensures h == d.holdover
      ensures forall i :: 0 <= i < |outs| ==> outs[i][..n * itemsizes[i]] == d.outs[i]
      ensures forall i :: 0 <= i < |outs| ==>
        outs[i][n * itemsizes[i]..] == old(outs[i][n * itemsizes[i]..])
    {
      var offset := e.time - time;
      if e.length + offset < n {
        RenderInPlace(outs, n, offset, e, cur);
        h := None;
      } else {
        var holdover := RenderOutOfPlace(outs, n, e, cur);
        h := Some(holdover);
      }
      forall i | 0 <= i < |outs| ensures outs[i][..n * itemsizes[i]] == d.outs[i] {
        assert d.outs[i] == RenderChannel(cur[i], itemsizes[i], n, offset, e.length, e.payload[i]);
      }
    }

    /** add_event() of a holdover event, if there is one. */
    method Reschedule(h: Option<Event>)
      requires Valid()
      requires h.Some? ==> WellFormed(h.value, itemsizes)
      modifies queue
      ensures Valid()
      ensures queue.events == Requeue(old(queue.events), h)
    {
      if h.Some? {
        queue.Add(h.value);
        assert forall e :: e in queue.events <==> e in multiset(queue.events);
      }
    }

    /** One pass of the event loop of work(): fetches the earliest event of
        the window [lo, lo + n), if there is one, renders it into the output
        channels, whose first `n` items hold `cur`, and queues its holdover.
        `found` is false when the window holds no more events. */
    method RenderNext(outs: seq<array<byte>>, n: nat, ghost lo: nat, ghost cur: seq<seq<byte>>)
      returns (found: bool, ghost after: seq<seq<byte>>)
      requires Valid() && lo == time
      requires |outs| == |itemsizes|
      requires forall i :: 0 <= i < |outs| ==> n * itemsizes[i] <= outs[i].Length
      requires forall i, j :: 0 <= i < j < |outs| ==> outs[i] != outs[j]
      requires Shaped(cur, n, itemsizes)
      requires forall i :: 0 <= i < |outs| ==> outs[i][..n * itemsizes[i]] == cur[i]
      modifies queue, outs
      ensures Valid() && Shaped(after, n, itemsizes)
      ensures forall i :: 0 <= i < |outs| ==> outs[i][..n * itemsizes[i]] == after[i]
      ensures forall i :: 0 <= i < |outs| ==>
        outs[i][n * itemsizes[i]..] == old(outs[i][n * itemsizes[i]..])
      ensures found ==> Step(cur, old(queue.events), lo, n, itemsizes) == Some((after, queue.events))
      ensures !found ==>
        Step(cur, old(queue.events), lo, n, itemsizes).None? &&
        after == cur && queue.events == old(queue.events)
    {
      ghost var q := queue.events;
      var next := queue.FetchNext(time, time + n);
      assert Valid();
      if next.None? {
        found, after := false, cur;
        return;
      }
      found := true;
      var e := next.value;
      ghost var k := FirstInWindow(q, lo, lo + n).value;
      assert e == q[k] && queue.events == RemoveAt(q, k);
      ghost var d := Dispatch(cur, e, lo, n, itemsizes);
      StepAt(cur, q, lo, n, itemsizes, k, d);
      var h := DispatchEvent(outs, n, e, cur, d);
      after := d.outs;
      Reschedule(h);
      assert queue.events == Requeue(RemoveAt(q, k), d.holdover);
    }

    /** The event loop of work(): fetches every event of the window
        [time, time + n), earliest first, and renders it into the output
        channels, whose first `n` items hold `start` on entry. */
    method RenderWindow(outs: seq<array<byte>>, n: nat, ghost start: seq<seq<byte>>)
      requires Valid()
      requires |outs| == |itemsizes|
      requires forall i :: 0 <= i < |outs| ==> n * itemsizes[i] <= outs[i].Length
      requires forall i, j :: 0 <= i < j < |outs| ==> outs[i] != outs[j]
      requires Shaped(start, n, itemsizes)
      requires forall i :: 0 <= i < |outs| ==> outs[i][..n * itemsizes[i]] == start[i]
      modifies queue, outs
      ensures Valid()
      ensures queue.events == Drain(start, old(queue.events), time, n, itemsizes).1
      ensures forall i :: 0 <= i < |outs| ==>
        outs[i][..n * itemsizes[i]] == Drain(start, old(queue.events), time, n, itemsizes).0[i]
      ensures forall i :: 0 <= i < |outs| ==>
        outs[i][n * itemsizes[i]..] == old(outs[i][n * itemsizes[i]..])
    {
      ghost var lo := time;
      ghost var cur := start;
      ghost var target := Drain(start, queue.events, lo, n, itemsizes);
      var found := true;
      while found
        invariant Valid() && lo == time && Shaped(cur, n, itemsizes)
        invariant forall i :: 0 <= i < |outs| ==> outs[i][..n * itemsizes[i]] == cur[i]
        invariant forall i :: 0 <= i < |outs| ==>
          outs[i][n * itemsizes[i]..] == old(outs[i][n * itemsizes[i]..])
        invariant found ==> Drain(cur, queue.events, lo, n, itemsizes) == target
        invariant !found ==> (cur, queue.events) == target
        decreases found, CountIn(queue.events, lo, lo + n)
      {
        DrainUnfold(cur, queue.events, lo, n, itemsizes);
        found, cur := RenderNext(outs, n, lo, cur);
      }
    }

    /** work(): zeroes the first `n` items of every output channel, renders
        the events of the window [time, time + n) into them, pushes the tail
        of any event that runs past the window back onto the queue, and
        advances the time cursor by the number of items produced. */
    method Work(n: nat, outs: seq<array<byte>>) returns (produced: nat)
      requires Valid()
      requires |outs| == |itemsizes|
      requires forall i :: 0 <= i < |outs| ==> n * itemsizes[i] <= outs[i].Length
      requires forall i, j :: 0 <= i < j < |outs| ==> outs[i] != outs[j]
      requires time + n <= U64_MAX
      requires CallFits(n, time, queue.events, itemsizes)
      modifies this, queue, outs
      ensures Valid()
      ensures maxlen == old(maxlen)
      ensures produced == Produced(old(time), maxlen, n)
      ensures time == old(time) + produced
      ensures queue.events == Drain(Zeroed(n, itemsizes), old(queue.events), old(time), n, itemsizes).1
      ensures forall i :: 0 <= i < |outs| ==>
        outs[i][..n * itemsizes[i]] == Drain(Zeroed(n, itemsizes), old(queue.events), old(time), n, itemsizes).0[i]
      ensures forall i :: 0 <= i < |outs| ==>
        outs[i][n * itemsizes[i]..] == old(outs[i][n * itemsizes[i]..])
    {
      ZeroOutputs(outs, n, itemsizes);
      RenderWindow(outs, n, Zeroed(n, itemsizes));
      produced := Produced(time, maxlen, n);
      time := time + produced;
    }
  }
}
