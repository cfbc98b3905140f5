# es_source: the event-stream source block of gr-eventstream

`es_source` is a GNU Radio source block whose output is driven by a queue
of timed events. Each call of `work(noutput_items, …)` covers the sample
window `[d_time, d_time + noutput_items)`. One call does the following:

- It zeroes the first `noutput_items` items of every output channel.
- It fetches, earliest first, every queued event whose time lies in the
  window.
- It runs each event's handler. When the event ends before the window
  does (`length + offset < noutput_items`), the handler writes in place,
  straight into the output at `offset` items. Otherwise it writes into
  freshly allocated temporary buffers. The first `usable = noutput_items -
  offset` items of those buffers are copied into the output. The remaining
  `leftover = length - usable` items become a new holdover event, which
  starts at `eh->time() + usable` (the window's end) and is added back to
  the queue.
- Finally it clamps the produced count to `d_maxlen - d_time` and advances
  the time cursor `d_time` by that count.

The model is imperative where the source is.

- `EsSource.Source` is a class with the fields `time` (`d_time`) and
  `maxlen` (`d_maxlen`), the per-channel item sizes (the output signature)
  and the event queue.
- The output channels are byte arrays (`seq<array<byte>>`).
- The temporary buffers are freshly allocated arrays.
- memset and memcpy are loops over arrays (`Buffers.ZeroFill`,
  `Buffers.CopyInto`).
- `work`'s fetch loop is a `while` loop (`Source.RenderWindow`) whose body
  (`Source.RenderNext`) fetches, dispatches and requeues one event.
- The queue is `Events.EventQueue`, a class over a time-ordered sequence
  of events with the two operations the block uses: fetch the earliest
  event in `[lo, hi)`, and add an event in time order.
- Handlers are modelled as the insert-vector handler that the constructor
  binds to every native event type (lib/es_source.cc:86-91). An event
  carries `length` items per channel; channel `i` has `length *
  itemsize(i)` bytes, and the handler writes those bytes into whatever
  buffer is bound to that channel.

Every method is proved against pure functions. Those of the fill itself
are in `fill_spec.dfy`:

- `Fill.Dispatch` renders one event into the channel contents.
- `Fill.Holdover` is the event an overflowing event leaves behind.
- `Fill.Step` is one pass of the fetch loop.
- `Fill.Drain` is the whole loop; it recurses until no queued event lies
  in the window.
- `Fill.Produced` is the clamped count.

`EventQueue.FetchNext` and `EventQueue.Add` are proved against the
functions of `event_queue.dfy`, and `ZeroFill` and `CopyInto` against
those of `buffers.dfy`. `CurrentTime` and `SetMax` state their results
directly.

`Source.Work` ensures three things. The output channels and the queue are
what `Drain` computes from zeroed channels and the old queue. Nothing past
`noutput_items` items in any channel changes. The cursor advances by
`Produced`. The lemmas in `fill_properties.dfy` then state what `Drain`
renders:

- A window without events stays silent.
- A single event that fits is placed at its offset between silence.
- A single event that overflows leaves exactly its unrendered tail,
  queued at the window's end.
- Two consecutive calls over a lone event render exactly what one call
  over both windows does, and leave the same queue, wherever the event
  lies. An event that straddles the two calls comes out whole and in
  order. This is stated for a lone event only. In the model, `Add` queues
  a holdover after every event with the same start time. `add_event`'s
  tie-break is not shown, so whether splitting stays invisible for such a
  pair depends on it.

Files:

- `buffers.dfy`: bytes, zero runs, overlays, memset and memcpy.
- `event_queue.dfy`: events and the time-ordered queue.
- `fill_spec.dfy`: the specification functions of one call.
- `es_source.dfy`: the block.
- `fill_properties.dfy`: properties and worked examples of what a call
  renders.

The cap is compared in unsigned 64-bit arithmetic: `d_maxlen - d_time`
is computed in `unsigned long long` (lib/es_source.cc:237). After
`set_max` (lib/es_source.cc:97-99) lowers the cap below the cursor, the
difference wraps, and every later call produces its whole request.
`Fill.Produced` states this: `maxlen < time` gives `r == n`.

## Model

| member | source | states |
|---|---|---|
| EsSource.Source.constructor | lib/es_source.cc:71-94 | the cursor starts at 0 and the cap at ULLONG_MAX; the queue is the one given |
| EsSource.Source.CurrentTime | lib/es_source.cc:64-66 | `time()` returns the cursor |
| EsSource.Source.SetMax | lib/es_source.cc:97-99 | `set_max` sets the cap and changes no other field |
| EsSource.Source.Work | lib/es_source.cc:108-241 | the channels' first `n` items and the queue become what `Drain` computes from zeroed channels and the old queue over `[time, time + n)`; the bytes past them are unchanged; the count returned is `Produced(time, maxlen, n)` and the cursor advances by exactly that count; the cap is unchanged |
| EsSource.ZeroOutputs | lib/es_source.cc:123-127 | before any event is rendered, every channel's first `n * itemsize(i)` bytes are zero and its later bytes are untouched |
| Buffers.ZeroFill | lib/es_source.cc:126 | memset zeroes exactly the first `len` bytes of the array |
| EsSource.Source.RenderWindow | lib/es_source.cc:129-234 | the fetch loop leaves the channels and the queue as `Drain` computes from its start state; the loop terminates because each pass lowers the number of queued in-window events |
| EsSource.Source.RenderNext | lib/es_source.cc:129-232 | one pass of the loop is exactly `Step`: if no queued event lies in the window, nothing changes and the loop ends; otherwise the channels and the queue become `Step`'s result |
| Events.EventQueue.FetchNext | lib/es_source.cc:129 | `fetch_next_event2(min_time, max_time)` returns an event exactly when one lies in `[lo, hi)`; it returns the first such event in queue order, which lies in the window, removes exactly that event, and keeps the queue sorted |
| Events.FirstInWindow | lib/es_source.cc:129 | the index `fetch_next_event2` takes: when there is one, it lies in the queue and its event lies in `[lo, hi)`; its partner `FirstInWindowSpec` states that it is the first such index and that none exists exactly when no event lies in the window |
| Events.RemoveAt | lib/es_source.cc:129 | the queue after the fetched event is taken out: one event shorter; its partner `RemoveAtContents` states that it drops exactly that event and keeps the order |
| Events.FirstInWindowSpec | lib/es_source.cc:129 | the fetched index is the first in-window event; nothing is fetched if and only if no queued event lies in the window |
| Events.FirstIsEarliest | lib/es_source.cc:129 | in a time-ordered queue the fetched event starts no later than any other in-window event |
| Events.RemoveAtContents | lib/es_source.cc:129 | removing the fetched event keeps the queue sorted and drops exactly that event (multiset) |
| Fill.Dispatch | lib/es_source.cc:139-232 | the in-place path (no holdover) is taken if and only if `length + offset < noutput_items`; otherwise the holdover is `Holdover(e)`; every channel is rendered by `RenderChannel` at `offset = e.time - time` |
| EsSource.Source.DispatchEvent | lib/es_source.cc:139-232 | the output channels end up as `Dispatch` renders them, the bytes past `n` items are unchanged, and the returned holdover is `Dispatch`'s |
| Fill.RenderChannel | lib/es_source.cc:150-209 | one channel after an event is rendered at `offset` items: the same length as before, in place when `length + offset < n` and otherwise only the first `n - offset` items; its partner `RenderChannelContents` states every byte range |
| Fill.RenderChannelContents | lib/es_source.cc:150-209 | a rendered channel keeps its bytes before `offset`; in place it holds the event's bytes in `[offset*isz, (offset+length)*isz)` and its old bytes after them; out of place its bytes from `offset` to the window's end are the first `usable` items of the event |
| EsSource.Source.RenderInPlace | lib/es_source.cc:159-172 | the handler run on buffers bound at `offset * itemsize(i)` into the outputs writes the event's bytes there and nothing outside the first `n` items |
| EsSource.RunHandler | lib/es_source.cc:167-172 | the insert-vector handler overlays channel `i`'s payload onto bound buffer `i` at its offset and changes nothing else |
| Buffers.CopyInto | lib/es_source.cc:206-208 | memcpy overlays `src` at byte `at` and leaves every other byte as it was |
| Buffers.OverlayContents | lib/es_source.cc:206-208 | an overlay holds `data` in `[at, at+|data|)` and the old bytes everywhere else |
| EsSource.Source.RenderToTemps | lib/es_source.cc:176-195 | one fresh, distinct temporary buffer of `length * itemsize(i)` bytes per channel, holding exactly the event's payload after the handler runs |
| EsSource.Source.RenderOutOfPlace | lib/es_source.cc:174-232 | the outputs are rendered as `RenderChannel` does on the out-of-place path, the bytes past `n` items are unchanged, and the returned event is exactly `Holdover(e)` |
| EsSource.Source.SplitTemps | lib/es_source.cc:199-219 | every channel gets the first `usable` items of its temporary buffer at `offset` items; the returned per-channel tails are the bytes `[usable*isz, length*isz)` |
| EsSource.Source.SplitChannel | lib/es_source.cc:199-219 | one channel: the memcpy of `usable * itemsize` bytes to `offset * itemsize`, and the tail `pmt_init_u8vector` copies |
| Fill.Holdover | lib/es_source.cc:200-223 | the holdover starts at `time + n`, the window's exclusive end; `usable + leftover == length`; `leftover == 0` if and only if the event ends exactly at the window's end; it carries `leftover` items per channel |
| Fill.HoldoverReassembles | lib/es_source.cc:200-219 | per channel, the usable part followed by the holdover's bytes is the handler's whole output: nothing lost or repeated |
| Fill.Tail | lib/es_source.cc:213-217 | the bytes `pmt_init_u8vector` copies for one channel's holdover: `(length - usable) * itemsize` of them; its partner `TailReassembles` states that they are exactly the bytes after the usable prefix |
| Fill.TailReassembles | lib/es_source.cc:213-217 | the first `usable` items of a buffer (`Head`) followed by its tail are the whole buffer |
| Fill.Head | lib/es_source.cc:206-208 | the bytes the memcpy copies from one channel's temporary buffer: its first `usable * itemsize` bytes; its partner `TailReassembles` states that they and the tail make up the whole buffer |
| Fill.TailTail | lib/es_source.cc:200-217 | taking `a` items off a payload and then `b` more is taking `a + b`: the tails agree, and the first `a` items followed by the next `b` are the first `a + b` |
| Fill.HoldoverTwice | lib/es_source.cc:200-224 | the holdover of a holdover is the holdover one call over both windows leaves |
| Fill.HoldoverShift | lib/es_source.cc:200-223 | the holdover depends only on where the window ends: a call starting later but ending at the same item leaves the same holdover |
| EsSource.Source.Reschedule | lib/es_source.cc:222-224 | `add_event` of the holdover, if any, leaves the queue as `Requeue` describes and keeps it sorted |
| Events.EventQueue.Add | lib/es_source.cc:224 | `add_event` inserts the event after every event that starts no later than it, keeps the queue sorted and adds exactly that event (multiset) |
| Events.InsertPos | lib/es_source.cc:224 | where `add_event` puts an event: a position within the queue; its partner `InsertPosSpec` states that it is after every event starting no later and before the first starting later |
| Events.Insert | lib/es_source.cc:224 | the queue after `add_event`: one event longer; its partners `InsertContents` and `InsertSorted` state that it gains exactly the event and stays in time order |
| Events.InsertPosSpec | lib/es_source.cc:224 | the insertion point is after every event starting no later than the new one and before the first one starting after it |
| Events.InsertSorted | lib/es_source.cc:224 | inserting keeps a time-ordered queue in time order |
| Events.InsertContents | lib/es_source.cc:224 | inserting adds exactly the new event (multiset) |
| Fill.Requeue | lib/es_source.cc:222-224 | the queue after the holdover, if any, is added: unchanged without a holdover, one event longer with one; `RequeueStep` states what it holds |
| Fill.RequeueStep | lib/es_source.cc:129-224 | one pass removes the fetched event and adds only a holdover at the window's end: the in-window count drops, events outside the window stay queued, every queued event stays well formed, and order is kept |
| Fill.Step | lib/es_source.cc:129-224 | one pass finds nothing if and only if no queued event lies in the window; otherwise it keeps the channels' shape and lowers the number of in-window events |
| Fill.Drain | lib/es_source.cc:129-234 | the `while` loop of `work`: `Step` repeated until no queued event lies in the window, keeping every channel `n` items long; it terminates because each step lowers the number of in-window events; its partners `DrainQueue` (the queue it leaves) and the `FillProperties` lemmas (the bytes it renders) state its results, and `Work` is proved against it |
| Fill.DrainQueue | lib/es_source.cc:129-234 | after the loop no queued event lies in the window, every event outside it is still queued, every new event is a holdover starting at the window's end (so it is never fetched again in the same call), and the queue stays sorted |
| Fill.Produced | lib/es_source.cc:236-240 | the count is at most `noutput_items`; when `time <= maxlen` it is `min(n, maxlen - time)` and the cursor does not pass the cap; once `time == maxlen` it is 0; when `maxlen < time` the unsigned difference wraps and the count is `n` |
| FillProperties.QuietWindow | lib/es_source.cc:129 | a window holding no queued event leaves the channels and the queue unchanged |
| FillProperties.SilentWindow | lib/es_source.cc:123-129 | a call whose window holds no event outputs silence and leaves the queue as it was |
| FillProperties.DrainSingle | lib/es_source.cc:129-224 | a queue holding one in-window event is drained by dispatching it once; only its holdover, if any, remains |
| FillProperties.SingleEventFits | lib/es_source.cc:150-172 | one event that ends before the window does is rendered as silence up to its offset, its items, then silence; nothing stays queued |
| FillProperties.SingleEventOverflows | lib/es_source.cc:150-224 | one event that reaches the window's end is rendered as silence up to its offset and then its first `n - offset` items; exactly its holdover stays queued |
| FillProperties.TwoCallsReassemble | lib/es_source.cc:200-224 | over two consecutive calls with a lone event, the holdover of the first call is fetched at offset 0 by the second; the two calls' channel bytes joined are silence, the whole event, then silence; nothing stays queued |
| FillProperties.TwoCallsAsOne | lib/es_source.cc:200-224 | for any lone event and any split of the window into two calls, the two calls' channel bytes joined, and the queue they leave, equal what one call over both windows produces; this covers an event outside both windows, fitting in the first, straddling the boundary, reaching past both, or starting in the second, and an empty second call |
| FillProperties.LoneDrain | lib/es_source.cc:129-224 | a call over a queue holding one in-window event renders every channel as silence up to the event, then its items (all of them followed by silence when it fits, its first `n - offset` otherwise) |
| FillProperties.InPlaceExample | lib/es_source.cc:150-172 | request 100, one 20-item event at 10: bytes 0-9 and 30-99 are zero, 10-29 the payload, queue empty |
| FillProperties.OverflowExample | lib/es_source.cc:174-224 | request 50, one 30-item event at 40: the first 10 items end the window, a 20-item holdover at 50 is queued, and the next call starts with those 20 items |
| FillProperties.BoundaryExample | lib/es_source.cc:154-224 | an event ending exactly at the window's end takes the out-of-place path (the `>=` comparison) and queues an empty holdover event at the window's end |

## Left out

- The queue's storage and its `fetch_next_event2` and `add_event` implementations are not part of this model. The queue is a time-ordered sequence. The fetch is modelled as the first in-window event in queue order; by `FirstIsEarliest` that is the earliest one. The add is modelled as insertion after every event that starts no later than the new one.
- `register_event_type` and `bind_handler` (lib/es_source.cc:80-91): the model fixes, for every event, the insert-vector handler that the constructor binds at lib/es_source.cc:86-91, so the binding itself is not modelled.
- Handlers other than insert-vector are left out. The implementation of `es_handler_insert_vector` is not shown; the model takes it to write exactly `length` items of the event's payload into the bound buffer of each channel.
- PMT plumbing (`register_buffer`, `pmt_init_u8vector`, `pmt_list1`/`pmt_list_add`, `event_create_gen_vector`) is foreign library code. It is replaced by the event datatype, whose payload holds one byte sequence per channel.
- The `eh == NULL` check and `assert(pmt_is_msg_accepter(...))` (lib/es_source.cc:134-141) abort on a broken queue or handler binding. The model's queue never returns a missing event and its handler is always bound, so neither check is modelled.
- The I/O-signature construction, the host scheduler and the unused input arguments of `work` are framework wiring and are left out.
- Freeing the temporary buffers (lib/es_source.cc:228-230) and the `DEBUG`/`printf` lines are left out. Temporaries are fresh arrays that the method drops.
- EsSource.Source.Work: requires `time + n <= ULLONG_MAX`, so it does not model 64-bit wrap-around of `max_time` or of the cursor.
- EsSource.Source.Work: requires `CallFits`, so it does not model truncation of the `int` quantities `noutput_items` and the channel byte counts, nor of `buffer_offset`, `buffer_event_max`, `bufsize`, `usable_items` and `leftover_items` of the events the call fetches (lib/es_source.cc:126, 139, 150, 180, 200-201). Events outside the window are not bounded, because the call computes nothing from them. With these bounds each of them equals its mathematical value. The final cast to `unsigned int` (line 237) never truncates, because the count is at most `noutput_items`.
- EsSource.Source.SetMax: requires the new cap to fit in 64 bits (the C parameter's range) and the object's invariant, so it takes no other argument values.
