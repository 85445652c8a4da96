# Render queue, collinear simplifier, composite font slots and window wait table

A Dafny model of four small stateful components of the JetBrains JDK 8
runtime, each a class whose methods are the Java methods' state transitions:

- **OGLRenderQueue** and its **QueueFlusher** thread (module `RenderQueue`).
  Producer threads encode commands into a buffer under the queue lock. A
  single flusher thread hands the buffer to the native sink. A producer asks
  for a flush either asynchronously, returning at once, or synchronously,
  blocking until the flusher has drained the buffer and then rethrowing the
  `Error` the drain recorded. Threads and monitors are not modelled. Each
  class method is one atomic step of one thread. The run loop is split into
  `BeginWait` (`count = 0`, then the timed wait), `EndWait` (the opportunistic
  test and `count++`) and `Drain` (the body after the inner loop). The queue
  lock is modelled by who holds it, so `tryLock` succeeds exactly when the lock
  is free. The native sink is a log of the buffers it received. Whether the
  sink, or a pending task, returns normally or throws an `Error` or an
  `Exception` is a parameter of `Drain`. The class-wide singleton
  (`theInstance`, `getInstance`, `sync`) is the class `OGLPipeline`: Java
  keeps these as static members of `OGLRenderQueue`, and the model gathers
  them in a class of their own.
- **DCollinearSimplifier** (module `CollinearSimplifier`). This path filter
  holds back at most one `lineTo` and merges collinear segments. The delegate
  is the list of commands forwarded to it. A ghost input log and the predicate
  `Thinned` state the filter's invariant: what was forwarded, plus the line
  held back, is the input with some `lineTo`s left out. A ghost list of merged
  points states that every dropped point lies on the line of the held-back
  segment. Coordinates are integers.
- **CCompositeFont** (module `CompositeFont`). Slot 0 holds the primary font
  and the later slots hold the fallback fonts. Fonts are identified by
  PostScript name. Clearing the strike cache is counted.
- **WindowStateMachine** (module `WindowStates`). This maps each X11 window id
  to one of two wait states, as a `map<int, State>`.

Where the code and its comments or design disagree, the model follows the code:

- A synchronous caller that rethrows the recorded error does not clear it. The
  error is cleared only at the start of the next drain
  (OGLRenderQueue.java:196-198, 249).
- The flusher's automatic flush never fires. See "Findings".
- An asynchronous request (`flushNow(false)`) lets the drain read the buffer
  while no thread holds the queue lock. See "Findings".
- Nothing stops the flusher thread itself from asking for a synchronous flush.

## Model

| member | source | states |
|---|---|---|
| `RenderQueue.Promote` | src/share/classes/sun/java2d/opengl/OGLRenderQueue.java:230-239 | the buffer is promoted to a flush exactly when no flush was requested, count >= DEFAULT_FLUSH_COUNT, tryLock succeeds and the position is positive; when the lock was taken on an empty buffer it is given back; a refused tryLock is told apart |
| `RenderQueue.IdleAsWritten` | src/share/classes/sun/java2d/opengl/OGLRenderQueue.java:213-244 | the inner loop as written promotes exactly when the test with count 0 promotes after some timed wait |
| `RenderQueue.AutoFlushNeverFires` | src/share/classes/sun/java2d/opengl/OGLRenderQueue.java:211-244 | in the loop as written (count set to 0 before every test), no sequence of timed waits ever promotes, whatever tryLock says and however full the buffer |
| `RenderQueue.IdleIntended` | src/share/classes/sun/java2d/opengl/OGLRenderQueue.java:216-228 | the corrected loop never flushes an empty buffer, and never before DEFAULT_FLUSH_COUNT timed waits have been counted |
| `RenderQueue.IdleIntendedPromotes` | src/share/classes/sun/java2d/opengl/OGLRenderQueue.java:216-230 | with the count kept across waits and each wait counted before the test, the loop promotes if and only if the buffer is non-empty and tryLock succeeds after some wait by which DEFAULT_FLUSH_COUNT waits have been counted, that wait included |
| `RenderQueue.IdleIntendedBoundedLatency` | src/share/classes/sun/java2d/opengl/OGLRenderQueue.java:159-161 | with the count kept, a non-empty buffer and a lock free after every wait are flushed at the DEFAULT_FLUSH_COUNT-th timed wait (10 waits of FLUSH_THRESHOLD = 10 ms, so LATENCY = 100 ms) and not one wait earlier |
| `RenderQueue.DrainFailure` | src/share/classes/sun/java2d/opengl/OGLRenderQueue.java:247-263 | a drain fails with the sink's throwable only if the buffer was non-empty, and with the task's only if there was a task; it succeeds exactly when neither threw |
| `RenderQueue.RecordedError` | src/share/classes/sun/java2d/opengl/OGLRenderQueue.java:259-263 | only an Error is recorded; an Exception leaves no error |
| `RenderQueue.OGLRenderQueue.constructor` | src/share/classes/sun/java2d/opengl/OGLRenderQueue.java:163-165 | a new queue has an empty buffer, a free lock, no request, task or error, and a flusher not yet started |
| `RenderQueue.OGLRenderQueue.Start` | src/share/classes/sun/java2d/opengl/OGLRenderQueue.java:65 | starting the flusher changes nothing else |
| `RenderQueue.OGLRenderQueue.Lock` | src/share/classes/sun/java2d/opengl/OGLRenderQueue.java:81 | a producer takes the lock only when it is free, and then holds it; nothing else changes |
| `RenderQueue.OGLRenderQueue.Unlock` | src/share/classes/sun/java2d/opengl/OGLRenderQueue.java:87 | the producer that holds the lock releases it; nothing else changes |
| `RenderQueue.OGLRenderQueue.PutInt` | src/share/classes/sun/java2d/opengl/OGLRenderQueue.java:83-84 | only a producer holding the lock writes, and the value is appended after the ones already in the buffer |
| `RenderQueue.OGLRenderQueue.FlushNow` | src/share/classes/sun/java2d/opengl/OGLRenderQueue.java:177-185 | a request sets needsFlush; an asynchronous one returns at once without throwing, a synchronous one joins the waiters; nothing else changes |
| `RenderQueue.OGLRenderQueue.AwaitFlush` | src/share/classes/sun/java2d/opengl/OGLRenderQueue.java:186-198 | a synchronous caller proceeds only once needsFlush is false, then throws the recorded Error if there is one and returns normally otherwise, leaving the error in place |
| `RenderQueue.OGLRenderQueue.FlushAndInvokeNow` | src/share/classes/sun/java2d/opengl/OGLRenderQueue.java:201-204 | the task becomes the pending task, replacing any earlier one, and a synchronous flush is requested |
| `RenderQueue.OGLRenderQueue.BeginWait` | src/share/classes/sun/java2d/opengl/OGLRenderQueue.java:213-221 | the inner loop runs only while no flush is requested; it sets count to 0 and the flusher waits |
| `RenderQueue.OGLRenderQueue.EndWait` | src/share/classes/sun/java2d/opengl/OGLRenderQueue.java:221-243 | after a wait the new state is the one Promote gives for the current count, lock and position, and the count goes up by one; because the count is 0 at every test, the request flag, the lock and `locked` are unchanged |
| `RenderQueue.OGLRenderQueue.Drain` | src/share/classes/sun/java2d/opengl/OGLRenderQueue.java:247-272 | the old error is cleared first. A non-empty buffer goes to the sink, and the buffer is cleared unless the sink threw. The task runs only after the sink succeeds, and is cleared unless it threw. Only an Error is recorded. needsFlush always ends false, and a lock the flusher held is released. The ghost log records who held the lock at the drain and whether a synchronous caller was waiting for it |
| `RenderQueue.OGLRenderQueue.FlushBuffer` | src/share/classes/sun/java2d/opengl/OGLRenderQueue.java:147-156 | a non-empty buffer is handed to the sink once; the buffer is cleared unless the sink threw, and that throwable is the failure; an empty buffer is only cleared |
| `RenderQueue.OGLRenderQueue.RunTask` | src/share/classes/sun/java2d/opengl/OGLRenderQueue.java:254-258 | a pending task runs once and is cleared unless it threw, and that throwable is the failure; without a task nothing runs |
| `RenderQueue.OGLRenderQueue.LockForDrain` | src/share/classes/sun/java2d/opengl/OGLRenderQueue.java:245-246 | corrected step: before a drain nobody holds the lock for, the flusher takes the free lock and sets its locked flag, so that the drain releases it |
| `RenderQueue.OGLRenderQueue.IntendedDrain` | src/share/classes/sun/java2d/opengl/OGLRenderQueue.java:245-272 | corrected drain: it is taken only when a producer holding the lock is one blocked on the flush. Every such drain runs with the lock held, by the flusher or by the blocked caller. The batch sent, the buffer, the task, the recorded error and the lock release are as in `Drain`. A lock the flusher took is free afterwards, and a blocked caller keeps its lock |
| `RenderQueue.OGLPipeline.GetInstance` | src/share/classes/sun/java2d/opengl/OGLRenderQueue.java:62-68 | the first call creates a fresh queue whose whole state is given (flusher started and running, count 0, empty buffer, free lock, no request); later calls return the same queue |
| `RenderQueue.OGLPipeline.Sync` | src/share/classes/sun/java2d/opengl/OGLRenderQueue.java:79-90 | without an instance, nothing happens. Otherwise the drain runs while the caller holds the lock and waits for it, and the sink receives the buffer plus one SYNC value. The pending task runs unless the sink threw, and stays pending only if the sink or the task threw. The caller gets the drain's Error if it had one. Afterwards the lock is free, the flusher is started and running, no request is pending, and the count has gone up by one exactly when the flusher was in its timed wait |
| `RenderQueue.SyncFlushScenario` | src/share/classes/sun/java2d/opengl/OGLRenderQueue.java:177-198 | the values encoded before a synchronous flush reach the sink once, in order; the call returns normally and leaves the buffer empty |
| `RenderQueue.ErrorDeliveredOnceScenario` | src/share/classes/sun/java2d/opengl/OGLRenderQueue.java:79-90 | over two sync() calls: an Error thrown by the sink reaches the caller whose flush drained it, and the next caller returns normally. The failed batch was kept, so the sink gets it again followed by the second SYNC |
| `RenderQueue.ExceptionSwallowedScenario` | src/share/classes/sun/java2d/opengl/OGLRenderQueue.java:259-263 | an Exception from the sink never reaches the synchronous caller, and the buffer stays uncleared |
| `RenderQueue.TaskScenario` | src/share/classes/sun/java2d/opengl/OGLRenderQueue.java:254-260 | the task of flushAndInvokeNow runs after the drain; an Error it throws reaches the caller and the task stays pending |
| `RenderQueue.UnrequestedOpScenario` | src/share/classes/sun/java2d/opengl/OGLRenderQueue.java:211-244 | from getInstance(): a value encoded without a flush request never reaches the sink, however many timed waits pass with the lock free |
| `RenderQueue.AsyncFlushScenario` | src/share/classes/sun/java2d/opengl/OGLRenderQueue.java:177-183 | from getInstance(): after flushNow(false) the producer unlocks, and the drain that follows reads the buffer with the lock free and no caller waiting |
| `RenderQueue.AsyncFlushLockedScenario` | src/share/classes/sun/java2d/opengl/OGLRenderQueue.java:245-272 | from getInstance(): with the corrected drain after an asynchronous request, the buffer is read under the flusher's lock, and the lock is free once the drain is done |
| `RenderQueue.SingletonScenario` | src/share/classes/sun/java2d/opengl/OGLRenderQueue.java:62-90 | sync() before any getInstance() does nothing and creates no instance; two getInstance() calls give the same queue |
| `CollinearSimplifier.HorizontalMerge` | src/share/classes/sun/java2d/marlin/DCollinearSimplifier.java:117 | two horizontal segments merge exactly when they do not point in opposite directions |
| `CollinearSimplifier.SlopedMerge` | src/share/classes/sun/java2d/marlin/DCollinearSimplifier.java:121 | when one segment is not horizontal, they merge exactly when neither is horizontal and the cross product is zero |
| `CollinearSimplifier.ReversalMerge` | src/share/classes/sun/java2d/marlin/DCollinearSimplifier.java:117-121 | a segment that goes straight back is merged when the line is sloped or vertical, but not when it is horizontal (unless its length is zero) |
| `CollinearSimplifier.Mergeable` | src/share/classes/sun/java2d/marlin/DCollinearSimplifier.java:117-121 | the merge test of lineTo: two horizontal segments that do not point in opposite directions, or two non-horizontal ones with a zero cross product (its consequences are MergeableParallel, HorizontalMerge, SlopedMerge and ReversalMerge) |
| `CollinearSimplifier.MergeableParallel` | src/share/classes/sun/java2d/marlin/DCollinearSimplifier.java:117-121 | only parallel directions merge, and a horizontal segment merges only with a horizontal one |
| `CollinearSimplifier.MergeStaysOnLine` | src/share/classes/sun/java2d/marlin/DCollinearSimplifier.java:113-126 | after a merge, the new end point lies on the line through the held-back segment's start with the stored direction |
| `CollinearSimplifier.ThinnedKeepsNonLines` | src/share/classes/sun/java2d/marlin/DCollinearSimplifier.java:109-155 | every command other than lineTo is forwarded, in input order, and nothing more is forwarded than was received |
| `CollinearSimplifier.ThinnedLinesFromInput` | src/share/classes/sun/java2d/marlin/DCollinearSimplifier.java:109-155 | every forwarded command, every lineTo included, is one of the input commands |
| `CollinearSimplifier.DCollinearSimplifier.constructor` | src/share/classes/sun/java2d/marlin/DCollinearSimplifier.java:45-46 | before init, every field has its Java default, so the state is STATE_PREV_LINE |
| `CollinearSimplifier.DCollinearSimplifier.Init` | src/share/classes/sun/java2d/marlin/DCollinearSimplifier.java:48-53 | the state becomes STATE_EMPTY, nothing is forwarded, and the invariant holds |
| `CollinearSimplifier.DCollinearSimplifier.Pending` | src/share/classes/sun/java2d/marlin/DCollinearSimplifier.java:151-155 | there is at most one held-back command, and one exists exactly in STATE_PREV_LINE |
| `CollinearSimplifier.DCollinearSimplifier.EmitStashedLine` | src/share/classes/sun/java2d/marlin/DCollinearSimplifier.java:151-155 | forwards lineTo(px2, py2) exactly when the state is STATE_PREV_LINE; nothing else changes |
| `CollinearSimplifier.DCollinearSimplifier.PathDone` | src/share/classes/sun/java2d/marlin/DCollinearSimplifier.java:56-60 | forwards the held-back line, if any, then exactly one pathDone. The state becomes STATE_EMPTY, so nothing is held back any more: the delegate holds the input minus the merged lineTos |
| `CollinearSimplifier.DCollinearSimplifier.ClosePath` | src/share/classes/sun/java2d/marlin/DCollinearSimplifier.java:63-67 | forwards the held-back line, if any, then exactly one closePath. The state becomes STATE_EMPTY, so nothing is held back any more: the delegate holds the input minus the merged lineTos |
| `CollinearSimplifier.DCollinearSimplifier.QuadTo` | src/share/classes/sun/java2d/marlin/DCollinearSimplifier.java:75-84 | forwards the held-back line, then the quadTo unchanged; the state becomes STATE_PREV_POINT at the curve's end point |
| `CollinearSimplifier.DCollinearSimplifier.CurveTo` | src/share/classes/sun/java2d/marlin/DCollinearSimplifier.java:87-97 | forwards the held-back line, then the curveTo unchanged; the state becomes STATE_PREV_POINT at the curve's end point |
| `CollinearSimplifier.DCollinearSimplifier.MoveTo` | src/share/classes/sun/java2d/marlin/DCollinearSimplifier.java:100-106 | forwards the held-back line, then the moveTo unchanged; the state becomes STATE_PREV_POINT at the new point |
| `CollinearSimplifier.DCollinearSimplifier.ForwardCurrentPoint` | src/share/classes/sun/java2d/marlin/DCollinearSimplifier.java:103-105 | once the held-back line is out, the command is forwarded unchanged and logged as input. Its end point becomes the current point in STATE_PREV_POINT, and the held-back direction and end point are untouched |
| `CollinearSimplifier.DCollinearSimplifier.LineTo` | src/share/classes/sun/java2d/marlin/DCollinearSimplifier.java:109-149 | gives the output and new state for each of the four cases. The invariant is kept: at most one line is held back, and forwarded plus held-back commands are the input with only lineTos left out. Merged points lie on the held-back segment's line, and on a held-back segment of length zero they keep its y |
| `CollinearSimplifier.DCollinearSimplifier.MergeLine` | src/share/classes/sun/java2d/marlin/DCollinearSimplifier.java:111-126 | a collinear lineTo in STATE_PREV_LINE forwards nothing and only moves the held-back end point |
| `CollinearSimplifier.DCollinearSimplifier.FlushLine` | src/share/classes/sun/java2d/marlin/DCollinearSimplifier.java:127-136 | a lineTo in STATE_PREV_LINE that does not merge forwards exactly the old held-back line, then holds back the new point and direction |
| `CollinearSimplifier.DCollinearSimplifier.HoldLine` | src/share/classes/sun/java2d/marlin/DCollinearSimplifier.java:137-142 | a lineTo in STATE_PREV_POINT forwards nothing and holds back the end point and the direction from (px1, py1) |
| `CollinearSimplifier.DCollinearSimplifier.ForwardLine` | src/share/classes/sun/java2d/marlin/DCollinearSimplifier.java:143-148 | a lineTo in STATE_EMPTY is forwarded at once, and its end point becomes the current point |
| `CollinearSimplifier.StraightRunScenario` | src/share/classes/sun/java2d/marlin/DCollinearSimplifier.java:111-126 | three collinear segments reach the delegate as one |
| `CollinearSimplifier.SlopedReversalScenario` | src/share/classes/sun/java2d/marlin/DCollinearSimplifier.java:121-126 | a sloped segment that doubles back is merged into one segment that ends at the last point |
| `CollinearSimplifier.HorizontalReversalScenario` | src/share/classes/sun/java2d/marlin/DCollinearSimplifier.java:117-136 | a horizontal segment that doubles back is not merged; both segments are forwarded |
| `CompositeFont.IndexOf` | src/macosx/classes/sun/font/CCompositeFont.java:53-61 | the lowest position of the name, -1 exactly when the name is absent |
| `CompositeFont.AddNameKeepsDistinct` | src/macosx/classes/sun/font/CCompositeFont.java:63-69 | appending only absent names keeps the slot names pairwise distinct |
| `CompositeFont.AddNameIdempotent` | src/macosx/classes/sun/font/CCompositeFont.java:63-69 | adding a name twice changes nothing the second time; its slot is the old one when it was present, the new last one otherwise |
| `CompositeFont.CCompositeFont.constructor` | src/macosx/classes/sun/font/CCompositeFont.java:10-13 | one slot, holding the given font, and no fallback fonts |
| `CompositeFont.CCompositeFont.GetNumSlots` | src/macosx/classes/sun/font/CCompositeFont.java:16-18 | the number of slots is one more than the number of fallback fonts |
| `CompositeFont.CCompositeFont.GetSlotFont` | src/macosx/classes/sun/font/CCompositeFont.java:21-26 | slot 0 is the primary font and slot k >= 1 is fallback font k - 1; there is no font outside [0, numSlots), where the list lookup throws |
| `CompositeFont.CCompositeFont.HasSupplementaryChars` | src/macosx/classes/sun/font/CCompositeFont.java:44-46 | always false |
| `CompositeFont.CCompositeFont.UseAAForPtSize` | src/macosx/classes/sun/font/CCompositeFont.java:49-51 | always true, at every point size |
| `CompositeFont.CCompositeFont.FindSlot` | src/macosx/classes/sun/font/CCompositeFont.java:53-61 | the lowest slot in [0, numSlots) whose font has the name, or -1 exactly when no slot has it |
| `CompositeFont.CCompositeFont.AddSlot` | src/macosx/classes/sun/font/CCompositeFont.java:63-70 | a present name returns its slot and changes nothing, the cache included. A new name is appended, the cache is cleared once, and the old numSlots is returned while numSlots grows by one. numSlots == 1 + fallbacks and distinct names are kept |
| `CompositeFont.AddSlotTwiceScenario` | src/macosx/classes/sun/font/CCompositeFont.java:63-70 | adding the same font twice returns the same slot both times and adds at most one slot |
| `WindowStates.WindowStateMachine.constructor` | src/solaris/classes/sun/awt/X11/WindowStateMachine.java:18 | the table starts empty |
| `WindowStates.WindowStateMachine.WaitForNotifyAfterRaise` | src/solaris/classes/sun/awt/X11/WindowStateMachine.java:20-23 | the id maps to RAISED_AND_WAITING_FOR_MAP_NOTIFY, overwriting any earlier state; every other entry is unchanged |
| `WindowStates.WindowStateMachine.WaitForNotifyAfterMap` | src/solaris/classes/sun/awt/X11/WindowStateMachine.java:25-28 | the id maps to MAPPED_AND_WAITING_FOR_MAP_NOTIFY, overwriting any earlier state; every other entry is unchanged |
| `WindowStates.WindowStateMachine.Notify` | src/solaris/classes/sun/awt/X11/WindowStateMachine.java:30-33 | the id is removed, and removing an absent id changes nothing; every other entry is unchanged |
| `WindowStates.WindowStateMachine.IsWaitingForWindowShow` | src/solaris/classes/sun/awt/X11/WindowStateMachine.java:35-37 | true exactly when some window is waiting |
| `WindowStates.RaiseOrMapThenNotify` | src/solaris/classes/sun/awt/X11/WindowStateMachine.java:20-37 | from an empty table, a raise or map of one window followed by its notify leaves no window waiting |
| `WindowStates.NotifyOneOfTwo` | src/solaris/classes/sun/awt/X11/WindowStateMachine.java:30-37 | notifying one of two waiting windows leaves the toolkit waiting |

## Findings

| source | as written | input that shows it | evidently intended | confidence | as-written member | corrected member |
|---|---|---|---|---|---|---|
| src/share/classes/sun/java2d/opengl/OGLRenderQueue.java:213-243 | `count = 0` is the first statement of the inner loop body (:214), so every test `count >= DEFAULT_FLUSH_COUNT` at :230 reads 0 and the opportunistic flush is never tried | a producer encodes one value and releases the lock, and nobody asks for a flush: after any number of 10 ms time-outs with the lock free, the value is still not flushed | `count = 0` once before the inner loop, and `count++` before the test at :230, so that the test reads the number of time-outs so far and the flusher flushes on its own at the DEFAULT_FLUSH_COUNT-th time-out, after LATENCY ms, as the comment at :216-228 says | high (proved, not executed) | `RenderQueue.UnrequestedOpScenario` | `RenderQueue.IdleIntendedBoundedLatency` |
| src/share/classes/sun/java2d/opengl/OGLRenderQueue.java:177-183 | `flushNow(false)` sets needsFlush and returns. The producer then releases the lock, and the drain at :247-272 reads and clears the buffer while no thread holds the lock; the comments at :181 and :246 raise the question, and the one at :245 assumes the drain is always under a lock | a producer locks, encodes one value, calls flushNow(false) and unlocks; the flusher then drains with the lock free | every drain runs under the queue lock: after an asynchronous request the flusher takes the lock itself before draining and releases it in the `finally` block | medium (not executed) | `RenderQueue.AsyncFlushScenario` | `RenderQueue.OGLRenderQueue.IntendedDrain` |

The class `OGLRenderQueue` follows the loop as written. Its invariant keeps
the count at 0 during every timed wait, so `EndWait` never promotes and the
queue never flushes on its own (`RenderQueue.UnrequestedOpScenario`). The same
loop over values is `RenderQueue.IdleAsWritten`, and
`RenderQueue.AutoFlushNeverFires` proves it never promotes. The corrected loop
is the function `IdleIntended`, with `RenderQueue.IdleIntendedPromotes` and
`RenderQueue.IdleIntendedBoundedLatency`.

The class also follows the asynchronous path as written: `Drain` does not
require the lock. The corrected drain is `OGLRenderQueue.IntendedDrain`,
which takes the lock through `OGLRenderQueue.LockForDrain` when nobody holds
it; `RenderQueue.AsyncFlushLockedScenario` runs it. The ghost log
`drainedUnder` records, for each drain, who held the lock and whether a
synchronous caller was waiting.

## Left out

- Threads: `Thread` subclassing, daemon status, priority, thread groups,
  `AccessController`, the `synchronized` monitors, `wait`/`notify` and
  `InterruptedException` (OGLRenderQueue.java:46-55, 167-171). They are
  replaced by atomic step methods. A blocking step's requires clause is the
  condition under which its thread can go on.
- The length of a timed wait. Time is not modelled, only the number of waits.
- The native `flushBuffer(long, int)`. It is a log of the buffers received,
  and its outcome is a parameter.
- `disposeGraphicsConfig` and `OGLContext.setScratchSurface`. They talk to
  native OpenGL code, which is not part of this model.
- `isQueueFlusherThread`. It compares thread identities, and threads are not
  modelled.
- The base classes `RenderQueue` and `RenderBuffer`, which are not part of
  this model:
  - The lock is reduced to which thread holds it. In the JDK this lock is the
    AWT lock, shared with other code.
  - The buffer is reduced to the 32-bit values written since the last clear.
    `Position` counts 4 bytes per value.
  - Capacity growth (`ensureCapacity`) and byte layout are not modelled.
  - `RenderQueue.flushNow()` is taken to mean `flushNow(true)`, as
    `QueueFlusher.flushNow()` does at :173-175.
- The wrappers `OGLRenderQueue.flushNow(boolean)` and `flushAndInvokeNow`
  (:124-143). They catch only `Exception`, and the flusher can throw only the
  recorded `Error`, so they pass through unchanged. The model's `FlushNow`,
  `AwaitFlush` and `FlushAndInvokeNow` stand for both layers.
- A throwable that is neither an `Error` nor an `Exception`. It would escape
  `run()` and end the flusher thread. The model knows only those two kinds.
- Logging to `System.err` in OGLRenderQueue and WindowStateMachine.
- RenderQueue.OGLPipeline.Sync: modelled as run to completion with no other
  thread taking a step in between. It therefore requires the queue lock to be
  free, where the source's `lock()` would block instead.
- RenderQueue.OGLRenderQueue.EndWait: the model does not tell a time-out from
  a `notify` that ends the wait. Both lead to the same test.
- CollinearSimplifier.Mergeable: coordinates are exact integers, not IEEE
  doubles. Rounding in `pdx * dy - pdy * dx` and the unused `EPS` are not
  modelled.
- `DCollinearSimplifier.getNativeConsumer`, which always returns 0, and the
  delegate's identity. `Init` starts a fresh log of forwarded commands.
- CCompositeFont's base class `CompositeFont`, `CCompositeGlyphMapper`, and
  the `synchronized` pass-throughs `getStrike`, `removeFromCache` and
  `getValidatedGlyphCode` (CCompositeFont.java:28-41). The strike cache and
  `lastFontStrike` are reduced to a count of how often they were cleared.
  Fonts are reduced to their PostScript names.
- CompositeFont.CCompositeFont.constructor: `numSlots == 1` after the
  constructor is assumed from the base class, which is given one component.
- WindowStateMachine's static instance and `get()`. Only the table is
  modelled.
- The insertion order of the `LinkedHashMap`, which no query observes.
- `null` window ids. Ids are integers.
