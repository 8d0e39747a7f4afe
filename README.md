# senso: history buffer and key dispatch

senso is a terminal dashboard for hardware temperature sensors. This Dafny
project models the two parts of it that hold logic of their own:

- `RingBuf<T>` (`ring_buffer.dfy`, module `RingBuffer`): a fixed-capacity
  history buffer. It keeps a counter `head`, a `capacity` and a deque `buf`.
  `put` into a full buffer drops the front (oldest) element and appends the
  new one at the back, so the buffer is first-in first-out. The Rust comment
  calls it FILO, but the code is FIFO. The class `RingBuf` has the three
  fields of the Rust struct. `put`, `get` and `len` are methods on it. The
  datatype `Snapshot` is the same state as a value. `PutStep` and `PutAll`
  specify one put and a run of puts. `Inv` is the invariant every
  constructor sets up and `put` keeps.
- `handle_input` (`input.dfy`, module `Input`): maps one terminal event to a
  `Dispatch`. A `Dispatch` holds the application calls made (select next
  chip, select previous chip, set pinned chip) and the returned `Result`.
  The quit keys return the `Interrupted` error. The mapping is checked
  against a separate key-binding table, `Bindings`.

`head` and the deque length are modelled separately because they can
differ. A buffer of capacity 0 keeps `head == 0` for ever. Yet each `put`
pops from its deque (a no-op when the deque is empty) and then pushes, so
after the first put the deque holds exactly the latest item. The model
keeps this behaviour. The invariant `Inv` admits that one case:
`|buf| == head`, or capacity 0 with one element held. The system's design
describes a capacity-0 buffer as permanently empty. The code does not do
that, and the model follows the code.

The two unit tests of `ring_buffer.rs` are client methods in module
`RingBufferTests`. Their `ensures` state what the Rust asserts check.

## Model

| member | source | states |
|---|---|---|
| RingBuffer.RingBuf.New | src/ring_buffer.rs:22-28 | `new(c)` has counter 0, an empty deque and capacity `c`, and satisfies the invariant |
| RingBuffer.RingBuf.FromVec | src/ring_buffer.rs:11-18 | `from(items)` has counter and capacity both `len(items)` and the deque equal to `items` in order, and satisfies the invariant |
| RingBuffer.RingBuf.Put | src/ring_buffer.rs:30-38 | when not full: the counter grows by one, `item` goes to the back and earlier contents are kept; when full: the counter stays, the front is popped (nothing if empty) and `item` goes to the back; the capacity never changes; the invariant is kept; the new state is `PutStep` of the old, the value-level put |
| RingBuffer.RingBuf.Get | src/ring_buffer.rs:40-42 | returns the deque as it is and changes nothing |
| RingBuffer.RingBuf.Len | src/ring_buffer.rs:44-46 | returns the counter `head`, not the deque length, and changes nothing |
| RingBuffer.PutStepKeepsLast | src/ring_buffer.rs:30-38 | one put into a consistent buffer keeps the capacity and the invariant; the deque becomes the last `max(capacity, 1)` elements of old contents plus `item`; the counter becomes `min(head + 1, capacity)`, or stays 0 at capacity 0 |
| RingBuffer.PutAllKeepsLast | src/ring_buffer.rs:30-38 | after any number of puts into a consistent buffer: capacity and invariant kept; deque = last `max(capacity, 1)` of old contents followed by the items, oldest first; counter = `min(head + n, capacity)` (0 at capacity 0) |
| RingBuffer.NewThenPuts | src/ring_buffer.rs:22-38 | from `new(c)` with `c >= 1`, after `n` puts: capacity still `c`, `len() == len(buf) == min(n, c)`, so never above the capacity, and the deque holds the last `min(n, c)` items put, oldest first |
| RingBuffer.FromThenPuts | src/ring_buffer.rs:11-38 | from `from(v)` with `v` non-empty, after puts the length stays `len(v)` and the deque is the last `len(v)` of `v` followed by the items |
| RingBuffer.CapacityZero | src/ring_buffer.rs:30-46 | at capacity 0 the counter (`len()`) stays 0 for ever; the deque is empty before any put and afterwards holds exactly the most recent item |
| RingBuffer.PutEvictsOnlyOldest | src/ring_buffer.rs:30-38 | a put into a full buffer (capacity at least 1) removes exactly the oldest element, keeps the order of the rest and keeps the length; a put into a non-full buffer keeps everything, appends and counts one more |
| RingBufferTests.TestRingBufFromVec | src/ring_buffer.rs:53-68 | `from([1..9])` then putting 10..15 gives `len() == 9`, front 7 and back 15 |
| RingBufferTests.TestRingBufNew | src/ring_buffer.rs:70-80 | `new(2)` then putting 0..5 in a loop gives `len() == 2` and back 5 |
| Input.HandleInput | src/input.rs:7-31 | every event makes at most one application call; an error is always `Interrupted` and comes with no call; a non-key event makes no call and returns `Ok` |
| Input.HandleInputFollowsBindings | src/input.rs:8-30 | on every event the dispatch is exactly the effect of the command the binding table gives (quit, next, previous, pin or nothing) |
| Input.ErrIffQuitKey | src/input.rs:8-30 | the result is an error if and only if the event is the key Esc or `q` |
| Input.BoundKeys | src/input.rs:11-25 | Esc and `q` return `Err(Interrupted)` with no call; Down and `j` make exactly one select-next call; Up and `k` exactly one select-previous call; Enter and `p` exactly one pin call; each of the last three returns `Ok` |
| Input.UnboundKeysDoNothing | src/input.rs:26 | a key whose code is not in the binding table returns `Ok` with no call |
| Input.ModifiersIgnored | src/input.rs:10 | the outcome depends only on the key code, not on the modifier keys |

## Left out

- `usize` bounds on `head` and `capacity`: both are modelled as `nat`. `head` is incremented only while it is below `capacity`, so it cannot overflow.
- The deque's storage (`VecDeque` allocation, `with_capacity`) is not modelled. `buf` is a sequence.
- `buf` is a public field in Rust, so callers may edit it directly. `Put` therefore has no precondition. It promises the invariant only when the invariant held before.
- The application's selection and pin state is not modelled. `select_next_chip`, `select_previous_chip` and `set_pinned_chip` are not defined on the `AppState` of src/app.rs. `App::select_next_chip` and `App::select_previous_chip` are `unimplemented!()` there (src/app.rs:48-54). The model records each call as an `AppCall` value instead of giving it an effect.
- `handle_input`'s `RefCell` borrow and the boxed `io::Error` are reduced to the list of calls and `Err(Interrupted)`.
- `KeyCode` covers the usual crossterm key codes. Media, modifier and lock keys are left out. No binding mentions them, so they would yield `Ok` with no call, like any other unbound code.
- A per-label history store, chip navigation (clamped next/previous), pin toggling and sampling on a tick are described for the system but do not exist in this code. They are not modelled.
- Terminal setup, drawing, the event-poll loop and the sleep (src/gui.rs), widget code and its floating-point percentages (src/components), the logger thread (src/logger.rs), argument parsing (src/main.rs) and the sensor wrappers (src/sensors.rs, src/terminal.rs, src/utils.rs) are I/O, rendering or concurrency. They are outside this model.
