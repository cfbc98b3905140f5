/** Properties of what `work` renders: a window without events stays
    silent, an event that fits is written once at its offset, an event that
    overflows leaves exactly its unrendered tail queued at the window's end,
    and two consecutive calls render a lone event exactly as one call over
    both windows would. */
module FillProperties {
  import opened Buffers
  import opened Events
  import opened Fill

  /** A window with no queued event in it leaves the channels and the
      queue as they are. */
  lemma QuietWindow(outs: seq<seq<byte>>, q: seq<Event>, lo: nat, n: nat, isz: seq<nat>)
    requires Shaped(outs, n, isz)
    requires forall e :: e in q ==> WellFormed(e, isz)
    requires forall e :: e in q ==> !InWindow(e, lo, lo + n)
    ensures Drain(outs, q, lo, n, isz) == (outs, q)
  {
    FirstInWindowSpec(q, lo, lo + n);
    assert forall j :: 0 <= j < |q| ==> q[j] in q;
    DrainUnfold(outs, q, lo, n, isz);
  }

  /** A call whose window holds no event produces silence. */
  lemma SilentWindow(q: seq<Event>, lo: nat, n: nat, isz: seq<nat>)
    requires forall e :: e in q ==> WellFormed(e, isz)
    requires forall e :: e in q ==> !InWindow(e, lo, lo + n)
    ensures var r := Drain(Zeroed(n, isz), q, lo, n, isz);
      r.1 == q && forall i :: 0 <= i < |isz| ==> r.0[i] == Silence(n, isz[i])
  {
    QuietWindow(Zeroed(n, isz), q, lo, n, isz);
  }

  /** Draining a queue holding one in-window event dispatches it once and
      leaves only its holdover, if any. */
  lemma DrainSingle(outs: seq<seq<byte>>, e: Event, lo: nat, n: nat, isz: seq<nat>)
    requires Shaped(outs, n, isz) && WellFormed(e, isz) && InWindow(e, lo, lo + n)
    ensures var d := Dispatch(outs, e, lo, n, isz);
      Drain(outs, [e], lo, n, isz) ==
        (d.outs, if d.holdover.Some? then [d.holdover.value] else [])
  {
    var d := Dispatch(outs, e, lo, n, isz);
    assert FirstInWindow([e], lo, lo + n) == Some(0);
    assert RemoveAt([e], 0) == [];
    StepAt(outs, [e], lo, n, isz, 0, d);
    DrainUnfold(outs, [e], lo, n, isz);
    var rest := Requeue(RemoveAt([e], 0), d.holdover);
    if d.holdover.Some? {
      assert Insert([], d.holdover.value) == [d.holdover.value];
    }
    QuietWindow(d.outs, rest, lo, n, isz);
  }

  /** A silent channel after an event that fits is rendered into it. */
  lemma FitChannel(c: seq<byte>, s: nat, n: nat, off: nat, len: nat, data: seq<byte>)
    requires |data| == len * s && len + off < n
    requires c == RenderChannel(Zeros(n * s), s, n, off, len, data)
    ensures c == Silence(off, s) + data + Silence(n - off - len, s)
  {
    RenderChannelContents(Zeros(n * s), s, n, off, len, data);
    MulAdd(off, len, s);
    MulSub(off + len, n, s);
    assert c == c[..off * s] + c[off * s..(off + len) * s] + c[(off + len) * s..];
  }

  /** A silent channel after an event that reaches its end is rendered
      into it. */
  lemma OverflowChannel(c: seq<byte>, s: nat, n: nat, off: nat, len: nat, data: seq<byte>)
    requires |data| == len * s && off < n <= len + off
    requires c == RenderChannel(Zeros(n * s), s, n, off, len, data)
    ensures c == Silence(off, s) + Head(data, s, len, n - off)
  {
    RenderChannelContents(Zeros(n * s), s, n, off, len, data);
    assert c == c[..off * s] + c[off * s..];
  }

  /** One event that ends before the window does: every channel holds
      silence, then the event's items at its offset, then silence again;
      nothing is left queued. */
  lemma SingleEventFits(e: Event, lo: nat, n: nat, isz: seq<nat>)
    requires WellFormed(e, isz) && InWindow(e, lo, lo + n)
    requires e.length + (e.time - lo) < n
    ensures var r := Drain(Zeroed(n, isz), [e], lo, n, isz);
      r.1 == [] &&
      forall i :: 0 <= i < |isz| ==>
        r.0[i] == Silence(e.time - lo, isz[i]) + e.payload[i] +
                  Silence(n - (e.time - lo) - e.length, isz[i])
  {
    DrainSingle(Zeroed(n, isz), e, lo, n, isz);
    DispatchFits(e, lo, n, isz);
  }

  /** SingleEventFits for the one dispatch: no holdover, and every channel
      rendered into silence. */
  lemma DispatchFits(e: Event, lo: nat, n: nat, isz: seq<nat>)
    requires WellFormed(e, isz) && InWindow(e, lo, lo + n)
    requires e.length + (e.time - lo) < n
    ensures var d := Dispatch(Zeroed(n, isz), e, lo, n, isz);
      d.holdover.None? &&
      forall i :: 0 <= i < |isz| ==>
        d.outs[i] == Silence(e.time - lo, isz[i]) + e.payload[i] +
                     Silence(n - (e.time - lo) - e.length, isz[i])
  {
    forall i | 0 <= i < |isz| {
      FitAt(e, lo, n, isz, i);
    }
  }

  /** DispatchFits on channel `i`. */
  lemma FitAt(e: Event, lo: nat, n: nat, isz: seq<nat>, i: nat)
    requires WellFormed(e, isz) && InWindow(e, lo, lo + n)
    requires e.length + (e.time - lo) < n && i < |isz|
    ensures Dispatch(Zeroed(n, isz), e, lo, n, isz).outs[i] ==
      Silence(e.time - lo, isz[i]) + e.payload[i] + Silence(n - (e.time - lo) - e.length, isz[i])
  {
    FitChannel(Dispatch(Zeroed(n, isz), e, lo, n, isz).outs[i], isz[i], n, e.time - lo, e.length, e.payload[i]);
  }

  /** One event that reaches the window's end: every channel holds silence,
      then the event's first items up to the end; its remaining items are
      queued as one holdover event starting at the window's end. */
  lemma SingleEventOverflows(e: Event, lo: nat, n: nat, isz: seq<nat>)
    requires WellFormed(e, isz) && InWindow(e, lo, lo + n)
    requires n <= e.length + (e.time - lo)
    ensures var r := Drain(Zeroed(n, isz), [e], lo, n, isz);
      r.1 == [Holdover(e, lo, n, isz)] &&
      forall i :: 0 <= i < |isz| ==>
        r.0[i] == Silence(e.time - lo, isz[i]) + Head(e.payload[i], isz[i], e.length, n - (e.time - lo))
  {
    DrainSingle(Zeroed(n, isz), e, lo, n, isz);
    DispatchOverflows(e, lo, n, isz);
  }

  /** SingleEventOverflows for the one dispatch: the holdover, and every
      channel rendered into silence. */
  lemma DispatchOverflows(e: Event, lo: nat, n: nat, isz: seq<nat>)
    requires WellFormed(e, isz) && InWindow(e, lo, lo + n)
    requires n <= e.length + (e.time - lo)
    ensures var d := Dispatch(Zeroed(n, isz), e, lo, n, isz);
      d.holdover == Some(Holdover(e, lo, n, isz)) &&
      forall i :: 0 <= i < |isz| ==>
        d.outs[i] == Silence(e.time - lo, isz[i]) + Head(e.payload[i], isz[i], e.length, n - (e.time - lo))
  {
    forall i | 0 <= i < |isz| {
      OverflowAt(e, lo, n, isz, i);
    }
  }

  /** DispatchOverflows on channel `i`. */
  lemma OverflowAt(e: Event, lo: nat, n: nat, isz: seq<nat>, i: nat)
    requires WellFormed(e, isz) && InWindow(e, lo, lo + n)
    requires n <= e.length + (e.time - lo) && i < |isz|
    ensures Dispatch(Zeroed(n, isz), e, lo, n, isz).outs[i] ==
      Silence(e.time - lo, isz[i]) + Head(e.payload[i], isz[i], e.length, n - (e.time - lo))
  {
    OverflowChannel(Dispatch(Zeroed(n, isz), e, lo, n, isz).outs[i], isz[i], n, e.time - lo, e.length, e.payload[i]);
  }

  /** A lone event that straddles two consecutive calls, its tail fitting
      in the second window, comes out of the two calls whole and in order:
      each channel's bytes of the first call followed by its bytes of the
      second are silence up to the event, the event's items, then silence,
      and nothing is left queued. (This is stated for a lone event: in the
      model, `Add` queues a holdover after every event with the same start
      time, and which of the two is rendered last depends on that order.) */
  lemma TwoCallsReassemble(e: Event, lo: nat, n1: nat, n2: nat, isz: seq<nat>)
    requires WellFormed(e, isz) && InWindow(e, lo, lo + n1)
    requires n1 <= e.length + (e.time - lo) < n1 + n2
    ensures var first := Drain(Zeroed(n1, isz), [e], lo, n1, isz);
      first.1 == [Holdover(e, lo, n1, isz)] &&
      var second := Drain(Zeroed(n2, isz), first.1, lo + n1, n2, isz);
      second.1 == [] &&
      forall i :: 0 <= i < |isz| ==>
        first.0[i] + second.0[i] ==
          Silence(e.time - lo, isz[i]) + e.payload[i] +
          Silence(n1 + n2 - (e.time - lo) - e.length, isz[i])
  {
    var off := e.time - lo;
    var h := Holdover(e, lo, n1, isz);
    SingleEventOverflows(e, lo, n1, isz);
    SingleEventFits(h, lo + n1, n2, isz);
    HoldoverReassembles(e, lo, n1, isz);
    var first := Drain(Zeroed(n1, isz), [e], lo, n1, isz);
    var second := Drain(Zeroed(n2, isz), [h], lo + n1, n2, isz);
    forall i | 0 <= i < |isz|
      ensures first.0[i] + second.0[i] ==
        Silence(off, isz[i]) + e.payload[i] + Silence(n1 + n2 - off - e.length, isz[i])
    {
      var s := isz[i];
      assert Silence(0, s) == [];
      assert n2 - 0 - h.length == n1 + n2 - off - e.length;
      JoinChannel(first.0[i], second.0[i], Silence(off, s), Head(e.payload[i], s, e.length, n1 - off),
                  h.payload[i], e.payload[i], Silence(n1 + n2 - off - e.length, s));
    }
  }

  /** One channel as a lone event at item `off` of an `n`-item window
      renders it into silence: silence up to the event, then its items, then
      silence if it ends inside the window, or only its first `n - off`
      items if it does not. */
  function LoneChannel(p: seq<byte>, s: nat, off: nat, len: nat, n: nat): seq<byte>
    requires |p| == len * s && off < n
  {
    if len + off < n then Silence(off, s) + p + Silence(n - off - len, s)
    else Silence(off, s) + Head(p, s, len, n - off)
  }

  /** Every channel as a lone event in the window renders it into silence. */
  function LoneOut(e: Event, lo: nat, n: nat, isz: seq<nat>): seq<seq<byte>>
    requires WellFormed(e, isz) && InWindow(e, lo, lo + n)
  {
    seq(|isz|, i requires 0 <= i < |isz| => LoneChannel(e.payload[i], isz[i], e.time - lo, e.length, n))
  }

  /** A call over a queue holding one in-window event renders LoneOut. */
  lemma LoneDrain(e: Event, lo: nat, n: nat, isz: seq<nat>)
    requires WellFormed(e, isz) && InWindow(e, lo, lo + n)
    ensures Drain(Zeroed(n, isz), [e], lo, n, isz).0 == LoneOut(e, lo, n, isz)
  {
    if e.length + (e.time - lo) < n {
      LoneDrainFits(e, lo, n, isz);
    } else {
      LoneDrainOverflows(e, lo, n, isz);
    }
  }

  /** LoneDrain for an event that ends inside the window. */
  lemma LoneDrainFits(e: Event, lo: nat, n: nat, isz: seq<nat>)
    requires WellFormed(e, isz) && InWindow(e, lo, lo + n)
    requires e.length + (e.time - lo) < n
    ensures Drain(Zeroed(n, isz), [e], lo, n, isz).0 == LoneOut(e, lo, n, isz)
  {
    var r := Drain(Zeroed(n, isz), [e], lo, n, isz).0;
    SingleEventFits(e, lo, n, isz);
    forall i | 0 <= i < |isz|
      ensures r[i] == LoneOut(e, lo, n, isz)[i]
    {
    }
  }

  /** LoneDrain for an event that reaches the end of the window. */
  lemma LoneDrainOverflows(e: Event, lo: nat, n: nat, isz: seq<nat>)
    requires WellFormed(e, isz) && InWindow(e, lo, lo + n)
    requires n <= e.length + (e.time - lo)
    ensures Drain(Zeroed(n, isz), [e], lo, n, isz).0 == LoneOut(e, lo, n, isz)
  {
    var r := Drain(Zeroed(n, isz), [e], lo, n, isz).0;
    SingleEventOverflows(e, lo, n, isz);
    forall i | 0 <= i < |isz|
      ensures r[i] == LoneOut(e, lo, n, isz)[i]
    {
    }
  }

  /** A channel where the event ends inside the first window, followed by
      the silent second window, is the channel over both windows. */
  lemma ChannelThenSilence(p: seq<byte>, s: nat, off: nat, len: nat, n1: nat, n2: nat)
    requires |p| == len * s && len + off < n1
    ensures LoneChannel(p, s, off, len, n1) + Silence(n2, s) == LoneChannel(p, s, off, len, n1 + n2)
  {
    SilenceAdd(n1 - off - len, n2, s);
  }

  /** The silent first window followed by a channel where the event starts
      inside the second window is the channel over both windows. */
  lemma SilenceThenChannel(p: seq<byte>, s: nat, off2: nat, off: nat, len: nat, n1: nat, n2: nat)
    requires |p| == len * s && off == n1 + off2 && off2 < n2
    ensures Silence(n1, s) + LoneChannel(p, s, off2, len, n2) == LoneChannel(p, s, off, len, n1 + n2)
  {
    SilenceAdd(n1, off2, s);
  }

  /** A channel where the event overflows the first window, followed by
      the second window rendering the tail held over from the first, is
      the channel over both windows. */
  lemma ChannelAcross(p: seq<byte>, s: nat, off: nat, len: nat, n1: nat, n2: nat,
                      hp: seq<byte>, hoff: nat, hlen: nat)
    requires |p| == len * s && off < n1 <= len + off && 0 < n2
    requires hp == Tail(p, s, len, n1 - off) && hoff == 0 && hlen == len - (n1 - off)
    ensures |hp| == hlen * s
    ensures LoneChannel(p, s, off, len, n1) + LoneChannel(hp, s, hoff, hlen, n2) ==
            LoneChannel(p, s, off, len, n1 + n2)
  {
    TailAcross(p, s, off, len, n1, n2);
  }

  /** ChannelAcross with the held-over tail written out. */
  lemma TailAcross(p: seq<byte>, s: nat, off: nat, len: nat, n1: nat, n2: nat)
    requires |p| == len * s && off < n1 <= len + off && 0 < n2
    ensures LoneChannel(p, s, off, len, n1) + LoneChannel(Tail(p, s, len, n1 - off), s, 0, len - (n1 - off), n2) ==
            LoneChannel(p, s, off, len, n1 + n2)
  {
    if len + off < n1 + n2 {
      TailFits(p, s, off, len, n1, n2);
    } else {
      TailOverflows(p, s, off, len, n1, n2);
    }
  }

  /** TailAcross when the tail ends inside the second window. */
  lemma TailFits(p: seq<byte>, s: nat, off: nat, len: nat, n1: nat, n2: nat)
    requires |p| == len * s && off < n1 <= len + off < n1 + n2
    ensures LoneChannel(p, s, off, len, n1) + LoneChannel(Tail(p, s, len, n1 - off), s, 0, len - (n1 - off), n2) ==
            LoneChannel(p, s, off, len, n1 + n2)
  {
    var u := n1 - off;
    var t := Tail(p, s, len, u);
    var trail := Silence(n1 + n2 - off - len, s);
    TailReassembles(p, s, len, u);
    assert LoneChannel(t, s, 0, len - u, n2) == t + trail by {
      assert Silence(0, s) == [];
      assert n2 - 0 - (len - u) == n1 + n2 - off - len;
    }
    JoinChannel(LoneChannel(p, s, off, len, n1), t + trail, Silence(off, s), Head(p, s, len, u), t, p, trail);
  }

  /** TailAcross when the tail reaches the end of the second window. */
  lemma TailOverflows(p: seq<byte>, s: nat, off: nat, len: nat, n1: nat, n2: nat)
    requires |p| == len * s && off < n1 && 0 < n2 && n1 + n2 <= len + off
    ensures LoneChannel(p, s, off, len, n1) + LoneChannel(Tail(p, s, len, n1 - off), s, 0, len - (n1 - off), n2) ==
            LoneChannel(p, s, off, len, n1 + n2)
  {
    var u := n1 - off;
    var t := Tail(p, s, len, u);
    TailTail(p, s, len, u, n2);
    assert LoneChannel(t, s, 0, len - u, n2) == Head(t, s, len - u, n2) by {
      assert Silence(0, s) == [];
    }
    assert u + n2 == n1 + n2 - off;
    JoinPrefix(LoneChannel(p, s, off, len, n1), LoneChannel(t, s, 0, len - u, n2), Silence(off, s),
               Head(p, s, len, u), Head(t, s, len - u, n2), Head(p, s, len, u + n2));
  }

  /** Appending after a lead-in: the lead-in followed by `x`, then `y`, is
      the lead-in followed by `x + y`. */
  lemma JoinPrefix(a: seq<byte>, b: seq<byte>, lead: seq<byte>, x: seq<byte>, y: seq<byte>, z: seq<byte>)
    requires x + y == z && a == lead + x && b == y
    ensures a + b == lead + z
  {
    assert a + b == lead + (x + y);
  }

  /** What two calls render for an event that starts in the first window
      and overflows it: the first window, then the held-over tail in the
      second, is the window over both. */
  lemma AcrossJoin(e: Event, lo: nat, n1: nat, n2: nat, isz: seq<nat>)
    requires WellFormed(e, isz) && InWindow(e, lo, lo + n1) && 0 < n2
    requires n1 <= e.length + (e.time - lo)
    ensures forall i :: 0 <= i < |isz| ==>
      LoneOut(e, lo, n1, isz)[i] + LoneOut(Holdover(e, lo, n1, isz), lo + n1, n2, isz)[i] ==
      LoneOut(e, lo, n1 + n2, isz)[i]
  {
    var h := Holdover(e, lo, n1, isz);
    forall i | 0 <= i < |isz|
      ensures LoneOut(e, lo, n1, isz)[i] + LoneOut(h, lo + n1, n2, isz)[i] == LoneOut(e, lo, n1 + n2, isz)[i]
    {
      ChannelAcross(e.payload[i], isz[i], e.time - lo, e.length, n1, n2, h.payload[i], h.time - (lo + n1), h.length);
    }
  }

  /** What two calls render for an event that fits in the first window:
      the first window, then silence, is the window over both. */
  lemma EarlyJoin(e: Event, lo: nat, n1: nat, n2: nat, isz: seq<nat>)
    requires WellFormed(e, isz) && InWindow(e, lo, lo + n1)
    requires e.length + (e.time - lo) < n1
    ensures forall i :: 0 <= i < |isz| ==>
      LoneOut(e, lo, n1, isz)[i] + Zeroed(n2, isz)[i] == LoneOut(e, lo, n1 + n2, isz)[i]
  {
    forall i | 0 <= i < |isz|
      ensures LoneOut(e, lo, n1, isz)[i] + Zeroed(n2, isz)[i] == LoneOut(e, lo, n1 + n2, isz)[i]
    {
      assert Zeroed(n2, isz)[i] == Silence(n2, isz[i]);
      ChannelThenSilence(e.payload[i], isz[i], e.time - lo, e.length, n1, n2);
    }
  }

  /** What two calls render for an event that starts in the second
      window: silence, then the second window, is the window over both. */
  lemma LateJoin(e: Event, lo: nat, n1: nat, n2: nat, isz: seq<nat>)
    requires WellFormed(e, isz) && InWindow(e, lo + n1, lo + n1 + n2)
    ensures forall i :: 0 <= i < |isz| ==>
      Zeroed(n1, isz)[i] + LoneOut(e, lo + n1, n2, isz)[i] == LoneOut(e, lo, n1 + n2, isz)[i]
  {
    forall i | 0 <= i < |isz|
      ensures Zeroed(n1, isz)[i] + LoneOut(e, lo + n1, n2, isz)[i] == LoneOut(e, lo, n1 + n2, isz)[i]
    {
      assert Zeroed(n1, isz)[i] == Silence(n1, isz[i]);
      SilenceThenChannel(e.payload[i], isz[i], e.time - (lo + n1), e.time - lo, e.length, n1, n2);
    }
  }

  /** Splitting the window [lo, lo + n1 + n2) into two consecutive calls
      is invisible for the lone event `e`: the two calls' channel bytes
      joined, and the queue they leave, are what one call over the whole
      window produces. */
  predicate SplitInvisible(e: Event, lo: nat, n1: nat, n2: nat, isz: seq<nat>)
    requires WellFormed(e, isz)
  {
    var first := Drain(Zeroed(n1, isz), [e], lo, n1, isz);
    DrainQueue(Zeroed(n1, isz), [e], lo, n1, isz);
    var second := Drain(Zeroed(n2, isz), first.1, lo + n1, n2, isz);
    var whole := Drain(Zeroed(n1 + n2, isz), [e], lo, n1 + n2, isz);
    second.1 == whole.1 &&
    forall i :: 0 <= i < |isz| ==> first.0[i] + second.0[i] == whole.0[i]
  }

  /** SplitInvisible from the three calls' results: `q` is the queue the
      first call leaves, `o1`, `o2` and `o3` the channels of the first, the
      second and the single call. */
  lemma SplitJoin(e: Event, lo: nat, n1: nat, n2: nat, isz: seq<nat>, q: seq<Event>,
                  o1: seq<seq<byte>>, o2: seq<seq<byte>>, o3: seq<seq<byte>>)
    requires WellFormed(e, isz)
    requires forall x :: x in q ==> WellFormed(x, isz)
    requires Drain(Zeroed(n1, isz), [e], lo, n1, isz).1 == q
    requires Drain(Zeroed(n2, isz), q, lo + n1, n2, isz).1 ==
             Drain(Zeroed(n1 + n2, isz), [e], lo, n1 + n2, isz).1
    requires Drain(Zeroed(n1, isz), [e], lo, n1, isz).0 == o1
    requires Drain(Zeroed(n2, isz), q, lo + n1, n2, isz).0 == o2
    requires Drain(Zeroed(n1 + n2, isz), [e], lo, n1 + n2, isz).0 == o3
    requires forall i :: 0 <= i < |isz| ==> o1[i] + o2[i] == o3[i]
    ensures SplitInvisible(e, lo, n1, n2, isz)
  {
  }

  /** For any lone event, two consecutive calls render what one call over
      both windows renders, and leave the same queue, wherever the event
      lies: outside both windows, in the first, across the boundary, past
      both, or in the second. (This is stated for a lone event: in the
      model, `Add` queues a holdover after every event with the same start
      time, and which of the two is rendered last depends on that order.) */
  lemma TwoCallsAsOne(e: Event, lo: nat, n1: nat, n2: nat, isz: seq<nat>)
    requires WellFormed(e, isz)
    ensures SplitInvisible(e, lo, n1, n2, isz)
  {
    var off := e.time - lo;
    if n2 == 0 {
      SplitNoSecond(e, lo, n1, n2, isz);
    } else if !InWindow(e, lo, lo + n1 + n2) {
      SplitOutside(e, lo, n1, n2, isz);
    } else if e.time < lo + n1 {
      if e.length + off < n1 {
        SplitFitsFirst(e, lo, n1, n2, isz);
      } else if e.length + off < n1 + n2 {
        SplitStraddling(e, lo, n1, n2, isz);
      } else {
        SplitBeyond(e, lo, n1, n2, isz);
      }
    } else if e.length + off < n1 + n2 {
      SplitFitsSecond(e, lo, n1, n2, isz);
    } else {
      SplitOverflowsSecond(e, lo, n1, n2, isz);
    }
  }

  /** An empty second window renders nothing and fetches nothing. */
  lemma SplitNoSecond(e: Event, lo: nat, n1: nat, n2: nat, isz: seq<nat>)
    requires WellFormed(e, isz) && n2 == 0
    ensures SplitInvisible(e, lo, n1, n2, isz)
  {
    var z := Zeroed(n1, isz);
    DrainQueue(z, [e], lo, n1, isz);
    var first := Drain(z, [e], lo, n1, isz);
    QuietWindow(Zeroed(0, isz), first.1, lo + n1, 0, isz);
    forall i | 0 <= i < |isz| ensures first.0[i] + Zeroed(0, isz)[i] == first.0[i] {
      assert Zeroed(0, isz)[i] == [];
    }
  }

  /** An event outside both windows is rendered by neither call. */
  lemma SplitOutside(e: Event, lo: nat, n1: nat, n2: nat, isz: seq<nat>)
    requires WellFormed(e, isz) && !InWindow(e, lo, lo + n1 + n2)
    ensures SplitInvisible(e, lo, n1, n2, isz)
  {
    SilentWindow([e], lo, n1, isz);
    SilentWindow([e], lo + n1, n2, isz);
    SilentWindow([e], lo, n1 + n2, isz);
    forall i | 0 <= i < |isz| ensures Silence(n1, isz[i]) + Silence(n2, isz[i]) == Silence(n1 + n2, isz[i]) {
      SilenceAdd(n1, n2, isz[i]);
    }
  }

  /** An event that fits in the first window: the second call is silent. */
  lemma SplitFitsFirst(e: Event, lo: nat, n1: nat, n2: nat, isz: seq<nat>)
    requires WellFormed(e, isz) && InWindow(e, lo, lo + n1)
    requires e.length + (e.time - lo) < n1
    ensures SplitInvisible(e, lo, n1, n2, isz)
  {
    FitsFirstQueues(e, lo, n1, n2, isz);
    LoneDrain(e, lo, n1, isz);
    QuietWindow(Zeroed(n2, isz), [], lo + n1, n2, isz);
    LoneDrain(e, lo, n1 + n2, isz);
    EarlyJoin(e, lo, n1, n2, isz);
    SplitJoin(e, lo, n1, n2, isz, [], LoneOut(e, lo, n1, isz), Zeroed(n2, isz), LoneOut(e, lo, n1 + n2, isz));
  }

  /** The queues left behind when the event fits in the first window. */
  lemma FitsFirstQueues(e: Event, lo: nat, n1: nat, n2: nat, isz: seq<nat>)
    requires WellFormed(e, isz) && InWindow(e, lo, lo + n1)
    requires e.length + (e.time - lo) < n1
    ensures Drain(Zeroed(n1, isz), [e], lo, n1, isz).1 == []
    ensures Drain(Zeroed(n2, isz), [], lo + n1, n2, isz).1 ==
            Drain(Zeroed(n1 + n2, isz), [e], lo, n1 + n2, isz).1
  {
    SingleEventFits(e, lo, n1, isz);
    SilentWindow([], lo + n1, n2, isz);
    SingleEventFits(e, lo, n1 + n2, isz);
  }


  /** An event that overflows the first window and ends inside the second. */
  lemma SplitStraddling(e: Event, lo: nat, n1: nat, n2: nat, isz: seq<nat>)
    requires WellFormed(e, isz) && InWindow(e, lo, lo + n1)
    requires n1 <= e.length + (e.time - lo) < n1 + n2
    ensures SplitInvisible(e, lo, n1, n2, isz)
  {
    var h := Holdover(e, lo, n1, isz);
    StraddleQueues(e, lo, n1, n2, isz);
    LoneDrain(e, lo, n1, isz);
    LoneDrain(h, lo + n1, n2, isz);
    LoneDrain(e, lo, n1 + n2, isz);
    AcrossJoin(e, lo, n1, n2, isz);
    SplitJoin(e, lo, n1, n2, isz, [h], LoneOut(e, lo, n1, isz), LoneOut(h, lo + n1, n2, isz), LoneOut(e, lo, n1 + n2, isz));
  }

  /** The queues left behind when the event overflows the first window and
      ends inside the second. */
  lemma StraddleQueues(e: Event, lo: nat, n1: nat, n2: nat, isz: seq<nat>)
    requires WellFormed(e, isz) && InWindow(e, lo, lo + n1)
    requires n1 <= e.length + (e.time - lo) < n1 + n2
    ensures Drain(Zeroed(n1, isz), [e], lo, n1, isz).1 == [Holdover(e, lo, n1, isz)]
    ensures Drain(Zeroed(n2, isz), [Holdover(e, lo, n1, isz)], lo + n1, n2, isz).1 == []
    ensures Drain(Zeroed(n1 + n2, isz), [e], lo, n1 + n2, isz).1 == []
  {
    SingleEventOverflows(e, lo, n1, isz);
    SingleEventFits(Holdover(e, lo, n1, isz), lo + n1, n2, isz);
    SingleEventFits(e, lo, n1 + n2, isz);
  }

  /** An event that starts in the first window and reaches the end of the
      second: the holdover of the first call overflows the second call,
      leaving the same holdover one call over both windows leaves. */
  lemma SplitBeyond(e: Event, lo: nat, n1: nat, n2: nat, isz: seq<nat>)
    requires WellFormed(e, isz) && InWindow(e, lo, lo + n1) && 0 < n2
    requires n1 + n2 <= e.length + (e.time - lo)
    ensures SplitInvisible(e, lo, n1, n2, isz)
  {
    var h := Holdover(e, lo, n1, isz);
    BeyondQueues(e, lo, n1, n2, isz);
    LoneDrain(e, lo, n1, isz);
    LoneDrain(h, lo + n1, n2, isz);
    LoneDrain(e, lo, n1 + n2, isz);
    AcrossJoin(e, lo, n1, n2, isz);
    SplitJoin(e, lo, n1, n2, isz, [h], LoneOut(e, lo, n1, isz), LoneOut(h, lo + n1, n2, isz), LoneOut(e, lo, n1 + n2, isz));
  }

  /** The queues left behind in the overflow-past-both case. */
  lemma BeyondQueues(e: Event, lo: nat, n1: nat, n2: nat, isz: seq<nat>)
    requires WellFormed(e, isz) && InWindow(e, lo, lo + n1) && 0 < n2
    requires n1 + n2 <= e.length + (e.time - lo)
    ensures Drain(Zeroed(n1, isz), [e], lo, n1, isz).1 == [Holdover(e, lo, n1, isz)]
    ensures Drain(Zeroed(n2, isz), [Holdover(e, lo, n1, isz)], lo + n1, n2, isz).1 ==
            Drain(Zeroed(n1 + n2, isz), [e], lo, n1 + n2, isz).1
  {
    SingleEventOverflows(e, lo, n1, isz);
    SingleEventOverflows(Holdover(e, lo, n1, isz), lo + n1, n2, isz);
    SingleEventOverflows(e, lo, n1 + n2, isz);
    HoldoverTwice(e, lo, n1, n2, isz);
  }





  /** An event that fits in the second window: the first call is silent. */
  lemma SplitFitsSecond(e: Event, lo: nat, n1: nat, n2: nat, isz: seq<nat>)
    requires WellFormed(e, isz) && InWindow(e, lo + n1, lo + n1 + n2)
    requires e.length + (e.time - lo) < n1 + n2
    ensures SplitInvisible(e, lo, n1, n2, isz)
  {
    LateFitQueues(e, lo, n1, n2, isz);
    QuietWindow(Zeroed(n1, isz), [e], lo, n1, isz);
    LoneDrain(e, lo + n1, n2, isz);
    LoneDrain(e, lo, n1 + n2, isz);
    LateJoin(e, lo, n1, n2, isz);
    SplitJoin(e, lo, n1, n2, isz, [e], Zeroed(n1, isz), LoneOut(e, lo + n1, n2, isz), LoneOut(e, lo, n1 + n2, isz));
  }

  /** The queues left behind when the event starts in the second window and
      ends inside it. */
  lemma LateFitQueues(e: Event, lo: nat, n1: nat, n2: nat, isz: seq<nat>)
    requires WellFormed(e, isz) && InWindow(e, lo + n1, lo + n1 + n2)
    requires e.length + (e.time - lo) < n1 + n2
    ensures Drain(Zeroed(n1, isz), [e], lo, n1, isz).1 == [e]
    ensures Drain(Zeroed(n2, isz), [e], lo + n1, n2, isz).1 == []
    ensures Drain(Zeroed(n1 + n2, isz), [e], lo, n1 + n2, isz).1 == []
  {
    SilentWindow([e], lo, n1, isz);
    SingleEventFits(e, lo + n1, n2, isz);
    SingleEventFits(e, lo, n1 + n2, isz);
  }


  /** An event that starts in the second window and reaches its end. */
  lemma SplitOverflowsSecond(e: Event, lo: nat, n1: nat, n2: nat, isz: seq<nat>)
    requires WellFormed(e, isz) && InWindow(e, lo + n1, lo + n1 + n2)
    requires n1 + n2 <= e.length + (e.time - lo)
    ensures SplitInvisible(e, lo, n1, n2, isz)
  {
    LateOverflowQueues(e, lo, n1, n2, isz);
    QuietWindow(Zeroed(n1, isz), [e], lo, n1, isz);
    LoneDrain(e, lo + n1, n2, isz);
    LoneDrain(e, lo, n1 + n2, isz);
    LateJoin(e, lo, n1, n2, isz);
    SplitJoin(e, lo, n1, n2, isz, [e], Zeroed(n1, isz), LoneOut(e, lo + n1, n2, isz), LoneOut(e, lo, n1 + n2, isz));
  }

  /** The queues left behind when the event starts in the second window and
      reaches its end. */
  lemma LateOverflowQueues(e: Event, lo: nat, n1: nat, n2: nat, isz: seq<nat>)
    requires WellFormed(e, isz) && InWindow(e, lo + n1, lo + n1 + n2)
    requires n1 + n2 <= e.length + (e.time - lo)
    ensures Drain(Zeroed(n1, isz), [e], lo, n1, isz).1 == [e]
    ensures Drain(Zeroed(n2, isz), [e], lo + n1, n2, isz).1 ==
            Drain(Zeroed(n1 + n2, isz), [e], lo, n1 + n2, isz).1
  {
    SilentWindow([e], lo, n1, isz);
    SingleEventOverflows(e, lo + n1, n2, isz);
    SingleEventOverflows(e, lo, n1 + n2, isz);
    HoldoverShift(e, lo, n1, n2, isz);
  }



  /** The channel bytes of two consecutive calls, joined. */
  lemma JoinChannel(a: seq<byte>, b: seq<byte>, lead: seq<byte>, x: seq<byte>, h: seq<byte>,
                    p: seq<byte>, trail: seq<byte>)
    requires x + h == p
    requires a == lead + x
    requires b == h + trail
    ensures a + b == lead + p + trail
  {
    assert a + b == lead + (x + h) + trail;
  }

  /** A 100-item request with one 20-item event 10 items into the window:
      silence, the event, silence; nothing is left queued. */
  lemma InPlaceExample(p: seq<byte>)
    requires |p| == 20
    ensures var r := Drain(Zeroed(100, [1]), [Event(10, 20, [p])], 0, 100, [1]);
      r == ([Zeros(10) + p + Zeros(70)], [])
  {
    var e := Event(10, 20, [p]);
    SingleEventFits(e, 0, 100, [1]);
    var r := Drain(Zeroed(100, [1]), [e], 0, 100, [1]);
    assert r.0 == [r.0[0]];
  }

  /** A 50-item request with one 30-item event 40 items in: the first 10
      items of the event end the window and a 20-item holdover starting at
      item 50 is queued; the next 50-item call starts with those 20 items. */
  lemma OverflowExample(p: seq<byte>)
    requires |p| == 30
    ensures var first := Drain(Zeroed(50, [1]), [Event(40, 30, [p])], 0, 50, [1]);
      var second := Drain(Zeroed(50, [1]), [Event(50, 20, [p[10..]])], 50, 50, [1]);
      first == ([Zeros(40) + p[..10]], [Event(50, 20, [p[10..]])]) &&
      second == ([p[10..] + Zeros(30)], [])
  {
    var e := Event(40, 30, [p]);
    var h := Holdover(e, 0, 50, [1]);
    SingleEventOverflows(e, 0, 50, [1]);
    HoldoverReassembles(e, 0, 50, [1]);
    assert h.payload[0] == p[10..];
    assert h == Event(50, 20, [p[10..]]);
    assert Head(p, 1, 30, 10) == p[..10];
    SingleEventFits(h, 50, 50, [1]);
    var first := Drain(Zeroed(50, [1]), [e], 0, 50, [1]);
    var second := Drain(Zeroed(50, [1]), [h], 50, 50, [1]);
    assert second.0[0] == Zeros(0 * 1) + p[10..] + Zeros(30 * 1);
    assert Zeros(0 * 1) + p[10..] == p[10..];
    assert second.1 == [];
    assert second.0[0] == p[10..] + Zeros(30);
    assert first.0 == [first.0[0]];
    assert second.0 == [second.0[0]];
    assert first == ([Zeros(40) + p[..10]], [Event(50, 20, [p[10..]])]);
    assert second == ([p[10..] + Zeros(30)], []);
  }

  /** A 50-item request with one 10-item event 40 items in: the event ends
      exactly at the window's end, yet it takes the out-of-place path and
      leaves an empty holdover event queued at item 50. */
  lemma BoundaryExample(p: seq<byte>)
    requires |p| == 10
    ensures Drain(Zeroed(50, [1]), [Event(40, 10, [p])], 0, 50, [1]) ==
      ([Zeros(40) + p], [Event(50, 0, [[]])])
  {
    var e := Event(40, 10, [p]);
    var h := Holdover(e, 0, 50, [1]);
    SingleEventOverflows(e, 0, 50, [1]);
    assert |h.payload[0]| == 0;
    assert h == Event(50, 0, [[]]);
    var r := Drain(Zeroed(50, [1]), [e], 0, 50, [1]);
    assert Head(p, 1, 10, 10) == p;
    assert r.0 == [r.0[0]];
  }
}
