/** What one call of the source's `work` computes, as functions of the
    state it starts from: the in-place / out-of-place dispatch of one
    event, the holdover event that carries an overflowing event's tail to
    the next call, the drain of every event in the call's window, and the
    clamp of the produced count to the configured maximum. */
module Fill {
  import opened Buffers
  import opened Events

  /** Largest value of the C `int` the source keeps offsets and counts in. */
  const INT_MAX: nat := 0x7FFF_FFFF
  /** ULLONG_MAX, the range of the time cursor and of the cap. */
  const U64_MAX: nat := 0xFFFF_FFFF_FFFF_FFFF

  /** Every channel holds `n` items, channel `i` in items of `isz[i]` bytes. */
  predicate Shaped(outs: seq<seq<byte>>, n: nat, isz: seq<nat>)
  {
    |outs| == |isz| && forall i :: 0 <= i < |isz| ==> |outs[i]| == n * isz[i]
  }

  /** `items` items of silence on a channel of `s`-byte items. */
  function Silence(items: nat, s: nat): (r: seq<byte>)
    ensures |r| == items * s
  {
    Zeros(items * s)
  }

  /** Two runs of silence in a row are one run. */
  lemma SilenceAdd(a: nat, b: nat, s: nat)
    ensures Silence(a, s) + Silence(b, s) == Silence(a + b, s)
  {
    MulAdd(a, b, s);
    var l := Silence(a, s) + Silence(b, s);
    assert forall k :: 0 <= k < |l| ==> l[k] == Silence(a + b, s)[k];
  }

  /** The output channels right after they are zeroed. */
  function Zeroed(n: nat, isz: seq<nat>): (r: seq<seq<byte>>)
    ensures Shaped(r, n, isz)
    ensures forall i :: 0 <= i < |isz| ==> r[i] == Zeros(n * isz[i])
  {
    seq(|isz|, i requires 0 <= i < |isz| => Zeros(n * isz[i]))
  }

  /** The `int` quantities of one call over [lo, lo + n) fit without
      truncation: the request itself, every channel's byte count, and, for
      every event the call fetches, its `buffer_event_max` (length plus
      offset) and every temporary buffer's byte size. Holdovers queued
      during the call start at `lo + n` and are never fetched by it. */
  predicate CallFits(n: nat, lo: nat, q: seq<Event>, isz: seq<nat>)
  {
    n <= INT_MAX &&
    (forall i :: 0 <= i < |isz| ==> n * isz[i] <= INT_MAX) &&
    (forall e :: e in q && InWindow(e, lo, lo + n) ==> e.length + (e.time - lo) <= INT_MAX) &&
    (forall e, i :: e in q && InWindow(e, lo, lo + n) && 0 <= i < |isz| ==>
      e.length * isz[i] <= INT_MAX)
  }

  /** One channel after an event `off` items into the window is rendered into
      it: the event's bytes `data` when they fit before the end of the
      window, otherwise only the first `n - off` items of them. */
  function RenderChannel(buf: seq<byte>, s: nat, n: nat, off: nat, len: nat, data: seq<byte>): (r: seq<byte>)
    requires |buf| == n * s && |data| == len * s && off < n
    ensures |r| == |buf|
  {
    if len + off < n then
      MulMono(off + len, n, s);
      MulAdd(off, len, s);
      Overlay(buf, off * s, data)
    else
      MulMono(n - off, len, s);
      MulSub(off, n, s);
      Overlay(buf, off * s, data[..(n - off) * s])
  }

  /** What a rendered channel holds: its first `off` items as before, then
      the event's items; when the event ends before the window does, the
      items after it as before, otherwise the event's first `n - off` items
      fill the channel to its end. */
  lemma RenderChannelContents(buf: seq<byte>, s: nat, n: nat, off: nat, len: nat, data: seq<byte>)
    requires |buf| == n * s && |data| == len * s && off < n
    ensures var r := RenderChannel(buf, s, n, off, len, data);
      off * s <= |buf| && r[..off * s] == buf[..off * s] &&
      (len + off < n ==>
        (off + len) * s <= |buf| &&
        r[off * s..(off + len) * s] == data && r[(off + len) * s..] == buf[(off + len) * s..]) &&
      (n <= len + off ==>
        (n - off) * s <= |data| && r[off * s..] == data[..(n - off) * s])
  {
    MulMono(off, n, s);
    if len + off < n {
      MulMono(off + len, n, s);
      MulAdd(off, len, s);
    } else {
      MulMono(n - off, len, s);
      MulSub(off, n, s);
    }
  }

  /** The bytes of one channel's payload before item `usable`. */
  function Head(data: seq<byte>, s: nat, len: nat, usable: nat): (r: seq<byte>)
    requires |data| == len * s && usable <= len
    ensures |r| == usable * s
  {
    MulMono(usable, len, s);
    data[..usable * s]
  }

  /** The bytes of one channel's payload from item `usable` onward. */
  function Tail(data: seq<byte>, s: nat, len: nat, usable: nat): (r: seq<byte>)
    requires |data| == len * s && usable <= len
    ensures |r| == (len - usable) * s
  {
    MulMono(usable, len, s);
    MulSub(usable, len, s);
    data[usable * s..]
  }

  /** The first `usable` items of a payload followed by its tail are the
      whole payload. */
  lemma TailReassembles(data: seq<byte>, s: nat, len: nat, usable: nat)
    requires |data| == len * s && usable <= len
    ensures Head(data, s, len, usable) + Tail(data, s, len, usable) == data
  {
    MulMono(usable, len, s);
    assert data[..usable * s] + data[usable * s..] == data;
  }

  /** Taking `a` items and then `b` more off a payload is taking `a + b`:
      the tails agree, and so do the heads put back together. */
  lemma TailTail(data: seq<byte>, s: nat, len: nat, a: nat, b: nat)
    requires |data| == len * s && a + b <= len
    ensures Tail(Tail(data, s, len, a), s, len - a, b) == Tail(data, s, len, a + b)
    ensures Head(data, s, len, a) + Head(Tail(data, s, len, a), s, len - a, b) == Head(data, s, len, a + b)
  {
    MulAdd(a, b, s);
    MulMono(a + b, len, s);
    MulSub(a, len, s);
    MulSub(b, len - a, s);
    assert data[..a * s] + data[a * s..][..b * s] == data[..(a + b) * s];
  }

  /** The event an overflowing event leaves behind: its items from the
      window's end onward, starting at the window's end. */
  function Holdover(e: Event, lo: nat, n: nat, isz: seq<nat>): (h: Event)
    requires WellFormed(e, isz) && InWindow(e, lo, lo + n)
    requires n <= e.length + (e.time - lo)
    ensures h.time == lo + n
    ensures h.length + (n - (e.time - lo)) == e.length
    ensures h.length == 0 <==> e.length + (e.time - lo) == n
    ensures WellFormed(h, isz)
  {
    var usable := n - (e.time - lo);
    var rest := seq(|isz|, i requires 0 <= i < |isz| => Tail(e.payload[i], isz[i], e.length, usable));
    Event(e.time + usable, e.length - usable, rest)
  }

  /** Every channel's payload is the part rendered in the window followed
      by the holdover's payload: nothing is lost or repeated. */
  lemma HoldoverReassembles(e: Event, lo: nat, n: nat, isz: seq<nat>)
    requires WellFormed(e, isz) && InWindow(e, lo, lo + n)
    requires n <= e.length + (e.time - lo)
    ensures forall i :: 0 <= i < |isz| ==>
      Head(e.payload[i], isz[i], e.length, n - (e.time - lo)) + Holdover(e, lo, n, isz).payload[i] == e.payload[i]
  {
    forall i | 0 <= i < |isz|
      ensures Head(e.payload[i], isz[i], e.length, n - (e.time - lo)) + Holdover(e, lo, n, isz).payload[i] == e.payload[i]
    {
      TailReassembles(e.payload[i], isz[i], e.length, n - (e.time - lo));
    }
  }

  /** Holding over twice is holding over once across both windows. */
  lemma HoldoverTwice(e: Event, lo: nat, n1: nat, n2: nat, isz: seq<nat>)
    requires WellFormed(e, isz) && InWindow(e, lo, lo + n1) && 0 < n2
    requires n1 + n2 <= e.length + (e.time - lo)
    ensures Holdover(Holdover(e, lo, n1, isz), lo + n1, n2, isz) == Holdover(e, lo, n1 + n2, isz)
  {
    var a := n1 - (e.time - lo);
    var h := Holdover(e, lo, n1, isz);
    var h1 := Holdover(h, lo + n1, n2, isz);
    var h2 := Holdover(e, lo, n1 + n2, isz);
    forall i | 0 <= i < |isz|
      ensures h1.payload[i] == h2.payload[i]
    {
      TailTail(e.payload[i], isz[i], e.length, a, n2);
    }
  }

  /** Where an event starts does not matter to its holdover, only where the
      window ends: a window starting later and ending at the same item
      leaves the same holdover. */
  lemma HoldoverShift(e: Event, lo: nat, n1: nat, n2: nat, isz: seq<nat>)
    requires WellFormed(e, isz) && InWindow(e, lo + n1, lo + n1 + n2)
    requires n1 + n2 <= e.length + (e.time - lo)
    ensures Holdover(e, lo + n1, n2, isz) == Holdover(e, lo, n1 + n2, isz)
  {
    assert n2 - (e.time - (lo + n1)) == n1 + n2 - (e.time - lo);
  }

  datatype Dispatched = Dispatched(outs: seq<seq<byte>>, holdover: Option<Event>)

  /** Renders one fetched event: in place when it ends before the window's
      end, otherwise through temporary buffers whose tail becomes a holdover
      event. */
  function Dispatch(outs: seq<seq<byte>>, e: Event, lo: nat, n: nat, isz: seq<nat>): (r: Dispatched)
    requires Shaped(outs, n, isz) && WellFormed(e, isz) && InWindow(e, lo, lo + n)
    ensures Shaped(r.outs, n, isz)
    ensures r.holdover.None? <==> e.length + (e.time - lo) < n
    ensures r.holdover.Some? ==> r.holdover.value == Holdover(e, lo, n, isz)
    ensures forall i :: 0 <= i < |isz| ==>
      r.outs[i] == RenderChannel(outs[i], isz[i], n, e.time - lo, e.length, e.payload[i])
  {
    var off := e.time - lo;
    var rendered := seq(|isz|, i requires 0 <= i < |isz| =>
      RenderChannel(outs[i], isz[i], n, off, e.length, e.payload[i]));
    Dispatched(rendered, if e.length + off < n then None else Some(Holdover(e, lo, n, isz)))
  }

  /** The queue after a dispatched event's holdover, if any, is added. */
  function Requeue(q: seq<Event>, h: Option<Event>): (r: seq<Event>)
    ensures h.None? ==> r == q
    ensures h.Some? ==> |r| == |q| + 1
  {
    if h.Some? then Insert(q, h.value) else q
  }

  /** One drain step: the fetched in-window event at `k` leaves the queue
      and its holdover, if any, which starts at `hi`, joins it. */
  lemma RequeueStep(q: seq<Event>, k: nat, h: Option<Event>, lo: nat, hi: nat, isz: seq<nat>)
    requires k < |q| && InWindow(q[k], lo, hi)
    requires forall e :: e in q ==> WellFormed(e, isz)
    requires h.Some? ==> WellFormed(h.value, isz) && h.value.time == hi
    ensures Fewer(Requeue(RemoveAt(q, k), h), q, lo, hi)
    ensures forall e :: e in Requeue(RemoveAt(q, k), h) ==> WellFormed(e, isz)
    ensures forall e :: e in q && !InWindow(e, lo, hi) ==> e in Requeue(RemoveAt(q, k), h)
    ensures forall e :: e in Requeue(RemoveAt(q, k), h) ==> e in q || e.time == hi
    ensures Sorted(q) ==> Sorted(Requeue(RemoveAt(q, k), h))
  {
    var rest := RemoveAt(q, k);
    RemoveAtCount(q, k, lo, hi);
    RemoveAtContents(q, k);
    assert forall e :: e in rest <==> e in multiset(rest);
    assert forall e :: e in q && e != q[k] ==> e in rest;
    assert forall e :: e in rest ==> e in q;
    if h.Some? {
      InsertCount(rest, h.value, lo, hi);
      InsertContents(rest, h.value);
      if Sorted(q) {
        InsertSorted(rest, h.value);
      }
      assert forall e :: e in Insert(rest, h.value) <==> e in rest || e == h.value by {
        assert forall e :: e in Insert(rest, h.value) <==> e in multiset(Insert(rest, h.value));
      }
    }
  }

  /** One pass of the event loop: the earliest queued event in [lo, lo + n)
      is dispatched, it leaves the queue and its holdover, if any, joins it;
      None when no queued event lies in the window. */
  function Step(outs: seq<seq<byte>>, q: seq<Event>, lo: nat, n: nat, isz: seq<nat>)
    : (r: Option<(seq<seq<byte>>, seq<Event>)>)
    requires Shaped(outs, n, isz)
    requires forall e :: e in q ==> WellFormed(e, isz)
    ensures r.None? <==> FirstInWindow(q, lo, lo + n).None?
    ensures r.Some? ==>
      Shaped(r.value.0, n, isz) &&
      (forall e :: e in r.value.1 ==> WellFormed(e, isz)) &&
      Fewer(r.value.1, q, lo, lo + n)
  {
    match FirstInWindow(q, lo, lo + n)
    case None => None
    case Some(k) =>
      var d := Dispatch(outs, q[k], lo, n, isz);
      RequeueStep(q, k, d.holdover, lo, lo + n, isz);
      Some((d.outs, Requeue(RemoveAt(q, k), d.holdover)))
  }

  /** Step in terms of the index of the event it fetches. */
  lemma StepAt(outs: seq<seq<byte>>, q: seq<Event>, lo: nat, n: nat, isz: seq<nat>, k: nat, d: Dispatched)
    requires Shaped(outs, n, isz)
    requires forall e :: e in q ==> WellFormed(e, isz)
    requires FirstInWindow(q, lo, lo + n) == Some(k)
    requires d == Dispatch(outs, q[k], lo, n, isz)
    ensures Step(outs, q, lo, n, isz) == Some((d.outs, Requeue(RemoveAt(q, k), d.holdover)))
  {
  }

  /** The channels and the queue after every event in [lo, lo + n) has been
      fetched, earliest first, and dispatched. */
  function Drain(outs: seq<seq<byte>>, q: seq<Event>, lo: nat, n: nat, isz: seq<nat>): (r: (seq<seq<byte>>, seq<Event>))
    requires Shaped(outs, n, isz)
    requires forall e :: e in q ==> WellFormed(e, isz)
    ensures Shaped(r.0, n, isz)
    decreases CountIn(q, lo, lo + n)
  {
    match Step(outs, q, lo, n, isz)
    case None => (outs, q)
    case Some(next) => Drain(next.0, next.1, lo, n, isz)
  }

  /** Drain unfolded once: it stops when Step finds nothing, and otherwise
      goes on from where Step leaves the channels and the queue. */
  lemma DrainUnfold(outs: seq<seq<byte>>, q: seq<Event>, lo: nat, n: nat, isz: seq<nat>)
    requires Shaped(outs, n, isz)
    requires forall e :: e in q ==> WellFormed(e, isz)
    ensures Step(outs, q, lo, n, isz).None? ==> Drain(outs, q, lo, n, isz) == (outs, q)
    ensures Step(outs, q, lo, n, isz).Some? ==>
      var next := Step(outs, q, lo, n, isz).value;
      Drain(outs, q, lo, n, isz) == Drain(next.0, next.1, lo, n, isz)
  {
  }

  /** After the drain no event is left in the window, every event outside
      it is still queued, every new event is a holdover starting at the
      window's end, and the queue is still in time order. */
  lemma {:induction false} DrainQueue(outs: seq<seq<byte>>, q: seq<Event>, lo: nat, n: nat, isz: seq<nat>)
    requires Shaped(outs, n, isz)
    requires forall e :: e in q ==> WellFormed(e, isz)
    ensures var r := Drain(outs, q, lo, n, isz).1;
      (forall e :: e in r ==> WellFormed(e, isz)) &&
      (forall e :: e in r ==> !InWindow(e, lo, lo + n)) &&
      (forall e :: e in q && !InWindow(e, lo, lo + n) ==> e in r) &&
      (forall e :: e in r ==> e in q || e.time == lo + n) &&
      (Sorted(q) ==> Sorted(r))
    decreases CountIn(q, lo, lo + n)
  {
    match FirstInWindow(q, lo, lo + n)
    case None =>
      FirstInWindowSpec(q, lo, lo + n);
    case Some(k) =>
      var d := Dispatch(outs, q[k], lo, n, isz);
      RequeueStep(q, k, d.holdover, lo, lo + n, isz);
      DrainQueue(d.outs, Requeue(RemoveAt(q, k), d.holdover), lo, n, isz);
  }

  function Min(a: nat, b: nat): nat
  {
    if a < b then a else b
  }

  /** The count `work` reports: the request clamped to `maxlen - time`, that
      difference taken in unsigned 64-bit arithmetic. */
  function Produced(time: nat, maxlen: nat, n: nat): (r: nat)
    requires time + n <= U64_MAX && maxlen <= U64_MAX
    ensures r <= n
    ensures time <= maxlen ==> r == Min(n, maxlen - time) && time + r <= maxlen
    ensures time == maxlen ==> r == 0
    ensures maxlen < time ==> r == n
  {
    var remaining := (maxlen - time) % (U64_MAX + 1);
    assert maxlen < time ==> remaining == U64_MAX + 1 - (time - maxlen);
    Min(n, remaining)
  }
}
