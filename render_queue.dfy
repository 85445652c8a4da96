/**
 * The OpenGL render queue (sun.java2d.opengl.OGLRenderQueue) and its flusher
 * thread (OGLRenderQueue.QueueFlusher).
 *
 * Producer threads encode drawing commands into the queue's buffer while
 * holding the queue lock; one flusher thread is the only caller of the native
 * sink that executes the buffer. A producer either asks for a flush and goes
 * on (asynchronous), or asks and blocks until the flusher has drained the
 * buffer, and then rethrows the Error the drain recorded (synchronous).
 *
 * Threads, monitors, wait and notify are not modelled: every method of the
 * class is one atomic step of one thread, and the requires clauses of the
 * blocking steps are the conditions under which that thread can proceed.
 * The buffer is the sequence of 32-bit values written since the last clear;
 * the native sink is a log of the buffers it was handed, and whether it (or
 * a pending task) returns normally or throws is a parameter of the drain.
 */
module RenderQueue {
  import opened Wrappers

  /** Latency budget of an unrequested flush, in milliseconds. */
  const LATENCY: int := 100
  /** Length of one timed wait of the flusher, in milliseconds. */
  const FLUSH_THRESHOLD: int := 10
  /** Timed waits after which the flusher is meant to flush on its own. */
  const DEFAULT_FLUSH_COUNT: int := LATENCY / FLUSH_THRESHOLD
  /** The SYNC opcode of sun.java2d.pipe.BufferedOpCodes (that class is not part of this model). */
  const SYNC: int := 76

  /** A Java throwable: a java.lang.Error or a java.lang.Exception, told apart by an id. */
  datatype Throwable = Error(id: nat) | Exception(id: nat)

  /** How a call into the native sink or a task's run() ends. */
  datatype Completion = Normal | Threw(thrown: Throwable)

  /** A Runnable handed to flushAndInvokeNow. */
  datatype Task = Task(id: nat)

  /** Which thread holds the queue lock: none, a producer, or the flusher itself. */
  datatype Holder = Free | Producer | Flusher

  /** Where the flusher is in its loop: between steps, or inside wait(FLUSH_THRESHOLD). */
  datatype Phase = Running | Waiting

  /** What the opportunistic test after a timed wait does. */
  datatype Promotion =
    | NotTried        // a flush was requested, or too few timed waits
    | LockBusy        // tryLock failed
    | Promoted        // the lock was taken and the buffer is not empty: flush
    | NothingToFlush  // the lock was taken, the buffer is empty: unlock again

  /**
   * The test after each timed wait: the flusher flushes on its own only when
   * no flush was requested, it has waited DEFAULT_FLUSH_COUNT times, tryLock
   * succeeds and the buffer holds something.
   */
  function Promote(needsFlush: bool, count: int, lockFree: bool, position: nat): (p: Promotion)
    ensures p == Promoted <==> !needsFlush && count >= DEFAULT_FLUSH_COUNT && lockFree && position > 0
    ensures p == NothingToFlush <==> !needsFlush && count >= DEFAULT_FLUSH_COUNT && lockFree && position == 0
    ensures p == LockBusy <==> !needsFlush && count >= DEFAULT_FLUSH_COUNT && !lockFree
  {
    if !needsFlush && count >= DEFAULT_FLUSH_COUNT then
      if !lockFree then LockBusy
      else if position > 0 then Promoted
      else NothingToFlush
    else NotTried
  }

  /**
   * The inner wait loop as the source writes it, over a run of timed waits
   * that all time out with no flush requested; `lockFree[i]` says whether
   * tryLock would succeed after wait i. The count is set to 0 at the top of
   * every iteration, so every test reads 0: the loop promotes exactly when
   * the test with count 0 promotes after some wait.
   */
  function IdleAsWritten(lockFree: seq<bool>, position: nat): (promoted: bool)
    ensures promoted <==> exists i :: 0 <= i < |lockFree| && Promote(false, 0, lockFree[i], position) == Promoted
  {
    if lockFree == [] then false
    else
      var count := 0;
      assert forall j :: 0 <= j < |lockFree| - 1 ==> lockFree[1..][j] == lockFree[j + 1];
      Promote(false, count, lockFree[0], position) == Promoted || IdleAsWritten(lockFree[1..], position)
  }

  /**
   * As written, the flusher never flushes on its own: however many timed
   * waits time out, whatever tryLock would say and however full the buffer.
   */
  lemma {:induction false} AutoFlushNeverFires(lockFree: seq<bool>, position: nat)
    ensures !IdleAsWritten(lockFree, position)
  {
    if lockFree != [] {
      assert Promote(false, 0, lockFree[0], position) == NotTried;
      AutoFlushNeverFires(lockFree[1..], position);
    }
  }

  /**
   * The inner wait loop as its comment describes it: `count` timed waits
   * have been counted when the loop is entered, and each wait is counted as
   * soon as it returns, before the test reads the count. It never flushes
   * an empty buffer, nor before DEFAULT_FLUSH_COUNT waits have been counted.
   */
  function IdleIntended(lockFree: seq<bool>, position: nat, count: int): (promoted: bool)
    ensures promoted ==> position > 0 && count + |lockFree| >= DEFAULT_FLUSH_COUNT
  {
    if lockFree == [] then false
    else
      Promote(false, count + 1, lockFree[0], position) == Promoted
      || IdleIntended(lockFree[1..], position, count + 1)
  }

  /**
   * With the count kept across timed waits, the flusher flushes on its own
   * exactly when the buffer holds something and tryLock succeeds after some
   * wait i at which DEFAULT_FLUSH_COUNT waits have been counted, that wait
   * included.
   */
  lemma {:induction false} IdleIntendedPromotes(lockFree: seq<bool>, position: nat, count: int)
    ensures IdleIntended(lockFree, position, count) <==>
      position > 0 && exists i :: 0 <= i < |lockFree| && count + i + 1 >= DEFAULT_FLUSH_COUNT && lockFree[i]
  {
    if lockFree != [] {
      IdleIntendedPromotes(lockFree[1..], position, count + 1);
      if position > 0 && exists i :: 0 <= i < |lockFree| && count + i + 1 >= DEFAULT_FLUSH_COUNT && lockFree[i] {
        var i :| 0 <= i < |lockFree| && count + i + 1 >= DEFAULT_FLUSH_COUNT && lockFree[i];
        if i > 0 {
          assert lockFree[1..][i - 1] == lockFree[i];
        }
      }
      if position > 0 && exists i :: 0 <= i < |lockFree[1..]| && count + 1 + i + 1 >= DEFAULT_FLUSH_COUNT && lockFree[1..][i] {
        var i :| 0 <= i < |lockFree[1..]| && count + 1 + i + 1 >= DEFAULT_FLUSH_COUNT && lockFree[1..][i];
        assert lockFree[i + 1] == lockFree[1..][i];
      }
    }
  }

  /**
   * The latency the comment promises: from a fresh loop entry, with a buffer
   * that holds something and the lock free after every wait, the flusher
   * flushes on its own at the DEFAULT_FLUSH_COUNT-th timed wait, that is
   * after LATENCY ms, and not one wait earlier.
   */
  lemma IdleIntendedBoundedLatency(lockFree: seq<bool>, position: nat)
    requires position > 0 && |lockFree| == DEFAULT_FLUSH_COUNT
    requires forall i :: 0 <= i < |lockFree| ==> lockFree[i]
    ensures IdleIntended(lockFree, position, 0)
    ensures !IdleIntended(lockFree[..DEFAULT_FLUSH_COUNT - 1], position, 0)
    ensures DEFAULT_FLUSH_COUNT * FLUSH_THRESHOLD == LATENCY
  {
    IdleIntendedPromotes(lockFree, position, 0);
    assert lockFree[DEFAULT_FLUSH_COUNT - 1];
  }

  /**
   * The completion of a drain: the sink is called only for a non-empty
   * buffer, the task only when the sink returned normally.
   */
  function DrainFailure(position: nat, sink: Completion, task: Option<Task>, run: Completion): (f: Option<Throwable>)
    ensures f.Some? ==> (position > 0 && sink == Threw(f.value)) || (task.Some? && run == Threw(f.value))
    ensures position > 0 && sink.Threw? ==> f == Some(sink.thrown)
    ensures f.None? <==> (position == 0 || sink == Normal) && (task.None? || run == Normal)
  {
    if position > 0 && sink.Threw? then Some(sink.thrown)
    else if task.Some? && run.Threw? then Some(run.thrown)
    else None
  }

  /** The Error a failure leaves in the flusher's error field; Exceptions leave none. */
  function RecordedError(f: Option<Throwable>): (e: Option<nat>)
    ensures e.Some? <==> f.Some? && f.value.Error?
    ensures e.Some? ==> f == Some(Error(e.value))
  {
    if f.Some? && f.value.Error? then Some(f.value.id) else None
  }

  class OGLRenderQueue {
    // The queue (RenderQueue): its buffer and the lock around it.
    /** The values written into the buffer since it was last cleared. */
    var buffer: seq<int>
    var holder: Holder

    // The flusher thread (QueueFlusher).
    var started: bool
    var needsFlush: bool
    var task: Option<Task>
    /** The Error the last drain threw, if any. */
    var error: Option<nat>
    /** Threads blocked in flushNow(true), waiting for needsFlush to fall. */
    var waiters: nat

    // The local variables of QueueFlusher.run().
    var phase: Phase
    var locked: bool
    var count: int

    // The native side.
    /** Every buffer handed to the native flushBuffer, in order. */
    var sunk: seq<seq<int>>
    /** Every task whose run() was invoked, in order. */
    var tasksRun: seq<Task>
    /**
     * At each drain, in order: who held the queue lock, and whether a
     * synchronous caller was blocked waiting for that drain.
     */
    ghost var drainedUnder: seq<(Holder, bool)>

    /** The buffer position in bytes: every value is a 4-byte int. */
    function Position(): (p: nat)
      reads this
      ensures p == 0 <==> buffer == []
    {
      4 * |buffer|
    }

    /**
     * The flusher's locked flag says exactly when it holds the queue lock,
     * and it holds it only for a flush it promoted and has not yet drained;
     * the count is 0 throughout every timed wait.
     */
    ghost predicate Valid()
      reads this
    {
      && (locked <==> holder == Flusher)
      && (locked ==> needsFlush && phase == Running)
      && (phase == Waiting ==> started && count == 0)
      && 0 <= count <= 1
    }

    /** A new queue: empty buffer, lock free, flusher not yet started. */
    constructor ()
      ensures Valid()
      ensures buffer == [] && holder == Free && !started
      ensures !needsFlush && task == None && error == None && waiters == 0
      ensures phase == Running && !locked && count == 0
      ensures sunk == [] && tasksRun == [] && drainedUnder == []
    {
      buffer, holder := [], Free;
      started, needsFlush, task, error, waiters := false, false, None, None, 0;
      phase, locked, count := Running, false, 0;
      sunk, tasksRun, drainedUnder := [], [], [];
    }

    /** Thread.start() of the flusher. */
    method Start()
      requires Valid() && !started
      modifies this`started
      ensures Valid() && started
    {
      started := true;
    }

    /** A producer takes the queue lock (lock() blocks until it is free). */
    method Lock()
      requires Valid() && holder == Free
      modifies this`holder
      ensures Valid() && holder == Producer
    {
      holder := Producer;
    }

    /** The producer releases the queue lock. */
    method Unlock()
      requires Valid() && holder == Producer
      modifies this`holder
      ensures Valid() && holder == Free
    {
      holder := Free;
    }

    /** A producer holding the lock appends one int to the buffer (ensureCapacity, then putInt). */
    method PutInt(v: int)
      requires Valid() && holder == Producer
      modifies this`buffer
      ensures Valid() && buffer == old(buffer) + [v]
    {
      buffer := buffer + [v];
    }

    /**
     * flushNow(sync), up to the point where the caller returns (sync ==
     * false) or starts to wait (sync == true): the request is raised and a
     * synchronous caller joins the waiters. Nothing is thrown here.
     */
    method FlushNow(sync: bool)
      requires Valid()
      modifies this`needsFlush, this`waiters
      ensures Valid()
      ensures needsFlush
      ensures waiters == old(waiters) + (if sync then 1 else 0)
    {
      needsFlush := true;
      if !sync {
        return;
      }
      waiters := waiters + 1;
    }

    /**
     * The end of flushNow(true): a waiter leaves its wait loop once
     * needsFlush is false, and then throws the recorded Error if there is
     * one and otherwise returns normally. The error stays recorded.
     */
    method AwaitFlush() returns (c: Completion)
      requires Valid() && waiters > 0 && !needsFlush
      modifies this`waiters
      ensures Valid() && waiters == old(waiters) - 1
      ensures c.Threw? <==> error.Some?
      ensures c.Threw? ==> c.thrown == Error(error.value)
    {
      waiters := waiters - 1;
      if error.Some? {
        c := Threw(Error(error.value));
      } else {
        c := Normal;
      }
    }

    /** flushAndInvokeNow(t) up to its wait: `t` becomes the pending task and a synchronous flush is requested. */
    method FlushAndInvokeNow(t: Task)
      requires Valid()
      modifies this`task, this`needsFlush, this`waiters
      ensures Valid()
      ensures task == Some(t) && needsFlush && waiters == old(waiters) + 1
    {
      task := Some(t);
      FlushNow(true);
    }

    /** The flusher enters the body of its inner loop: count := 0, then wait(FLUSH_THRESHOLD). */
    method BeginWait()
      requires Valid() && started && phase == Running && !needsFlush
      modifies this`count, this`phase
      ensures Valid()
      ensures count == 0 && phase == Waiting
    {
      count := 0;
      phase := Waiting;
    }

    /**
     * The timed wait returns (time-out or notify): the opportunistic test
     * runs with the current count and a tryLock that succeeds exactly when
     * the queue lock is free, then the count goes up by one. Since the
     * count is 0 at every test, the test never tries the lock.
     */
    method EndWait()
      requires Valid() && phase == Waiting
      modifies this`needsFlush, this`holder, this`locked, this`count, this`phase
      ensures Valid()
      ensures var p := Promote(old(needsFlush), old(count), old(holder) == Free, old(Position()));
        && needsFlush == (old(needsFlush) || p == Promoted)
        && locked == (p == Promoted)
        && holder == (if p == Promoted then Flusher else old(holder))
      ensures needsFlush == old(needsFlush) && holder == old(holder) && !locked
      ensures count == old(count) + 1 && phase == Running
    {
      // the test of the source, with tryLock succeeding exactly when the lock is free
      var p := Promote(needsFlush, count, holder == Free, Position());
      needsFlush := needsFlush || p == Promoted;
      locked := p == Promoted;
      holder := if p == Promoted then Flusher else holder;
      count := count + 1;
      phase := Running;
    }

    /**
     * One drain, once needsFlush is set: clear the error, hand a non-empty
     * buffer to the sink and clear it, run and clear the pending task. An
     * Error thrown by the sink or the task is recorded, an Exception is
     * swallowed; a throw leaves the rest undone (a failed sink keeps the
     * buffer and the task). Always: the flusher releases the lock if it
     * held it, and needsFlush falls.
     */
    method Drain(sink: Completion, run: Completion)
      requires Valid() && started && phase == Running && needsFlush
      modifies this`error, this`buffer, this`task, this`sunk, this`tasksRun
      modifies this`locked, this`holder, this`needsFlush, this`drainedUnder
      ensures Valid()
      ensures drainedUnder == old(drainedUnder) + [(old(holder), old(waiters) > 0)]
      ensures var sinkFailed := old(Position()) > 0 && sink.Threw?;
        && sunk == old(sunk) + (if old(Position()) > 0 then [old(buffer)] else [])
        && buffer == (if sinkFailed then old(buffer) else [])
        && tasksRun == old(tasksRun) + (if old(task).Some? && !sinkFailed then [old(task).value] else [])
        && task == (if sinkFailed || run.Threw? then old(task) else None)
      ensures error == RecordedError(DrainFailure(old(Position()), sink, old(task), run))
      ensures !needsFlush && !locked
      ensures holder == (if old(locked) then Free else old(holder))
    {
      drainedUnder := drainedUnder + [(holder, waiters > 0)];
      var failure := FlushBuffer(sink);
      if failure.None? {
        failure := RunTask(run);
      }
      // the error is reset first and set only by an Error
      error := RecordedError(failure);
      // finally
      if locked {
        locked := false;
        holder := Free;
      }
      needsFlush := false;
    }

    /**
     * flushBuffer(): a non-empty buffer goes to the sink, and the buffer is
     * cleared unless the sink threw, which is the drain's failure.
     */
    method FlushBuffer(sink: Completion) returns (failure: Option<Throwable>)
      modifies this`sunk, this`buffer
      ensures sunk == old(sunk) + (if old(Position()) > 0 then [old(buffer)] else [])
      ensures failure == (if old(Position()) > 0 && sink.Threw? then Some(sink.thrown) else None)
      ensures buffer == (if failure.Some? then old(buffer) else [])
    {
      failure := None;
      if Position() > 0 {
        sunk := sunk + [buffer];
        if sink.Threw? {
          failure := Some(sink.thrown);
          return;
        }
      }
      buffer := [];
    }

    /**
     * The pending task, if any, runs; it is cleared unless it threw, which
     * is the drain's failure.
     */
    method RunTask(run: Completion) returns (failure: Option<Throwable>)
      modifies this`task, this`tasksRun
      ensures tasksRun == old(tasksRun) + (if old(task).Some? then [old(task).value] else [])
      ensures failure == (if old(task).Some? && run.Threw? then Some(run.thrown) else None)
      ensures task == (if failure.Some? then old(task) else None)
    {
      failure := None;
      if task.Some? {
        tasksRun := tasksRun + [task.value];
        if run.Threw? {
          failure := Some(run.thrown);
          return;
        }
        task := None;
      }
    }

    /**
     * The step a flusher that keeps the lock handoff would take before a
     * drain that no thread holds the lock for, as after an asynchronous
     * request: it takes the queue lock itself (lock() proceeds once the lock
     * is free) and sets its locked flag, so that the drain releases it.
     */
    method LockForDrain()
      requires Valid() && started && phase == Running && needsFlush && holder == Free
      modifies this`holder, this`locked
      ensures Valid() && holder == Flusher && locked
    {
      holder := Flusher;
      locked := true;
    }

    /**
     * The corrected drain. After an asynchronous request no thread holds
     * the lock, and the flusher first takes it itself (LockForDrain); a
     * drain for a blocked synchronous caller runs under that caller's lock.
     * The flusher's lock() blocks while a producer that is not waiting
     * still holds the lock, so the step is taken only once it has let go.
     * Every such drain runs with the lock held, and a producer holding it
     * is one blocked on the drain.
     */
    method IntendedDrain(sink: Completion, run: Completion)
      requires Valid() && started && phase == Running && needsFlush
      requires holder == Producer ==> waiters > 0
      modifies this`error, this`buffer, this`task, this`sunk, this`tasksRun
      modifies this`locked, this`holder, this`needsFlush, this`drainedUnder
      ensures Valid()
      ensures drainedUnder == old(drainedUnder) + [(if old(holder) == Free then Flusher else old(holder), old(waiters) > 0)]
      ensures var d := drainedUnder[|drainedUnder| - 1]; d.0 == Flusher || d == (Producer, true)
      ensures var sinkFailed := old(Position()) > 0 && sink.Threw?;
        && sunk == old(sunk) + (if old(Position()) > 0 then [old(buffer)] else [])
        && buffer == (if sinkFailed then old(buffer) else [])
        && tasksRun == old(tasksRun) + (if old(task).Some? && !sinkFailed then [old(task).value] else [])
        && task == (if sinkFailed || run.Threw? then old(task) else None)
      ensures error == RecordedError(DrainFailure(old(Position()), sink, old(task), run))
      ensures !needsFlush && !locked
      ensures holder == (if old(holder) == Producer then Producer else Free)
    {
      if holder == Free {
        LockForDrain();
      }
      Drain(sink, run);
    }
  }

  /**
   * The static members of OGLRenderQueue: the field theInstance, the
   * method getInstance() and the method sync(). Java has them on the
   * OGLRenderQueue class itself; they are gathered in this class of their
   * own, named after the OpenGL pipeline they belong to, because a Dafny
   * class has no mutable static fields.
   */
  class OGLPipeline {
    var theInstance: OGLRenderQueue?

    constructor ()
      ensures theInstance == null
    {
      theInstance := null;
    }

    /** The single queue, created and its flusher started on the first call only. */
    method GetInstance() returns (q: OGLRenderQueue)
      modifies this
      ensures theInstance == q
      ensures old(theInstance) != null ==> q == old(theInstance)
      ensures old(theInstance) == null ==>
        && fresh(q) && q.Valid() && q.started
        && q.buffer == [] && q.holder == Free && !q.needsFlush && q.task == None
        && q.error == None && q.waiters == 0 && q.sunk == [] && q.tasksRun == []
        && q.phase == Running && !q.locked && q.count == 0 && q.drainedUnder == []
    {
      if theInstance == null {
        theInstance := new OGLRenderQueue();
        theInstance.Start();
      }
      q := theInstance;
    }

    /**
     * sync(), when no other thread gets in the way: a no-op without an
     * instance; otherwise take the lock, append SYNC, flush synchronously
     * (the flusher leaves its wait and drains), rethrow the drain's Error
     * and release the lock.
     */
    method Sync(sink: Completion, run: Completion) returns (c: Completion)
      requires theInstance != null ==> theInstance.Valid() && theInstance.started && theInstance.holder == Free
      modifies theInstance
      ensures theInstance == old(theInstance)
      ensures old(theInstance) == null ==> c == Normal
      ensures old(theInstance) != null ==>
        var q := theInstance;
        var batch := old(q.buffer) + [SYNC];
        var failure := DrainFailure(4 * |batch|, sink, old(q.task), run);
        && q.Valid() && q.started && q.holder == Free && !q.needsFlush && q.waiters == old(q.waiters)
        && q.phase == Running && !q.locked
        && q.count == (if old(q.phase) == Waiting then old(q.count) + 1 else old(q.count))
        && q.drainedUnder == old(q.drainedUnder) + [(Producer, true)]
        && q.sunk == old(q.sunk) + [batch]
        && q.buffer == (if sink.Threw? then batch else [])
        && q.tasksRun == old(q.tasksRun) + (if old(q.task).Some? && !sink.Threw? then [old(q.task).value] else [])
        && q.task == (if sink.Threw? || run.Threw? then old(q.task) else None)
        && q.error == RecordedError(failure)
        && c == (if q.error.Some? then Threw(Error(q.error.value)) else Normal)
    {
      c := Normal;
      if theInstance != null {
        var q := theInstance;
        q.Lock();
        q.PutInt(SYNC);
        q.FlushNow(true);
        if q.phase == Waiting {
          q.EndWait();
        }
        assert q.buffer == old(q.buffer) + [SYNC] && q.task == old(q.task) && q.holder == Producer;
        assert q.phase == Running && q.waiters == old(q.waiters) + 1;
        q.Drain(sink, run);
        assert q.error == RecordedError(DrainFailure(4 * |old(q.buffer) + [SYNC]|, sink, old(q.task), run));
        c := q.AwaitFlush();
        q.Unlock();
      }
    }
  }

  /**
   * A producer encodes `ops` and flushes synchronously, with a sink that
   * returns normally: the sink receives exactly those values once, the call
   * returns normally and the buffer is empty afterwards.
   */
  method SyncFlushScenario(ops: seq<int>) returns (sunk: seq<seq<int>>, c: Completion, left: seq<int>)
    ensures ops != [] ==> sunk == [ops]
    ensures ops == [] ==> sunk == []
    ensures c == Normal && left == []
  {
    var q := new OGLRenderQueue();
    q.Start();
    q.Lock();
    var i := 0;
    while i < |ops|
      invariant 0 <= i <= |ops|
      invariant q.Valid() && q.started && q.holder == Producer && q.phase == Running
      invariant q.buffer == ops[..i] && q.sunk == [] && q.task == None && q.waiters == 0
      invariant !q.needsFlush
    {
      q.PutInt(ops[i]);
      i := i + 1;
    }
    assert q.buffer == ops;
    q.FlushNow(true);
    q.Drain(Normal, Normal);
    c := q.AwaitFlush();
    q.Unlock();
    sunk, left := q.sunk, q.buffer;
  }

  /**
   * Two calls of sync() after a producer encoded one value: the sink throws
   * an Error on the first drain, which reaches the first caller; the second
   * caller returns normally. Because the failed drain kept the buffer, the
   * sink gets the first batch again, followed by the second SYNC.
   */
  method ErrorDeliveredOnceScenario(first: int, e: nat) returns (c1: Completion, c2: Completion, sunk: seq<seq<int>>)
    ensures c1 == Threw(Error(e)) && c2 == Normal
    ensures sunk == [[first, SYNC], [first, SYNC, SYNC]]
  {
    var p := new OGLPipeline();
    var q := p.GetInstance();
    q.Lock();
    q.PutInt(first);
    q.Unlock();
    assert q.buffer == [first] && q.sunk == [] && p.theInstance == q;
    c1 := p.Sync(Threw(Error(e)), Normal);
    assert [first] + [SYNC] == [first, SYNC];
    assert q.sunk == [[first, SYNC]] && q.buffer == [first, SYNC] && q.task == None;
    ghost var before, batch := q.sunk, q.buffer + [SYNC];
    c2 := p.Sync(Normal, Normal);
    assert q.sunk == before + [batch];
    assert batch == [first, SYNC, SYNC];
    sunk := q.sunk;
  }

  /** An Exception from the sink is swallowed: the synchronous caller returns normally. */
  method ExceptionSwallowedScenario(v: int, x: nat) returns (c: Completion, left: seq<int>)
    ensures c == Normal && left == [v]
  {
    var q := new OGLRenderQueue();
    q.Start();
    q.Lock();
    q.PutInt(v);
    q.FlushNow(true);
    q.Drain(Threw(Exception(x)), Normal);
    c := q.AwaitFlush();
    q.Unlock();
    left := q.buffer;
  }

  /**
   * flushAndInvokeNow: the task runs right after the buffer is drained, and
   * an Error it throws reaches the caller while the task stays pending.
   */
  method TaskScenario(v: int, t: Task, e: nat) returns (ran: seq<Task>, c: Completion, pending: Option<Task>)
    ensures ran == [t] && c == Threw(Error(e)) && pending == Some(t)
  {
    var q := new OGLRenderQueue();
    q.Start();
    q.Lock();
    q.PutInt(v);
    q.FlushAndInvokeNow(t);
    q.Drain(Normal, Threw(Error(e)));
    c := q.AwaitFlush();
    q.Unlock();
    ran, pending := q.tasksRun, q.task;
  }

  /**
   * A producer that encodes a value without asking for a flush: with the
   * lock free after every timed wait, no number of waits hands the value to
   * the sink, because the opportunistic flush is never tried.
   */
  method UnrequestedOpScenario(v: int, waits: nat) returns (sunk: seq<seq<int>>, pending: seq<int>)
    ensures sunk == [] && pending == [v]
  {
    var p := new OGLPipeline();
    var q := p.GetInstance();
    q.Lock();
    q.PutInt(v);
    q.Unlock();
    var i := 0;
    while i < waits
      invariant 0 <= i <= waits
      invariant q.Valid() && q.started && q.phase == Running && q.holder == Free
      invariant !q.needsFlush && q.buffer == [v] && q.sunk == []
    {
      q.BeginWait();
      q.EndWait();
      i := i + 1;
    }
    sunk, pending := q.sunk, q.buffer;
  }

  /**
   * An asynchronous flush: the producer returns at once and releases the
   * lock, so the drain that follows reads the buffer while no thread holds
   * the queue lock and no caller waits for it.
   */
  method AsyncFlushScenario(v: int) returns (holderAtDrain: Holder, sunk: seq<seq<int>>, ghost drained: (Holder, bool))
    ensures holderAtDrain == Free && sunk == [[v]] && drained == (Free, false)
  {
    var p := new OGLPipeline();
    var q := p.GetInstance();
    q.Lock();
    q.PutInt(v);
    q.FlushNow(false);
    q.Unlock();
    holderAtDrain := q.holder;
    assert q.buffer == [v] && q.sunk == [] && q.Position() > 0;
    q.Drain(Normal, Normal);
    assert q.sunk == [[v]];
    sunk := q.sunk;
    drained := q.drainedUnder[|q.drainedUnder| - 1];
  }

  /**
   * The same asynchronous flush with the corrected drain: the flusher takes
   * the lock before it reads the buffer, and the lock is free again once the
   * drain is done.
   */
  method AsyncFlushLockedScenario(v: int) returns (holderAfter: Holder, sunk: seq<seq<int>>, ghost drained: (Holder, bool))
    ensures holderAfter == Free && sunk == [[v]] && drained == (Flusher, false)
  {
    var p := new OGLPipeline();
    var q := p.GetInstance();
    q.Lock();
    q.PutInt(v);
    q.FlushNow(false);
    q.Unlock();
    assert q.buffer == [v] && q.sunk == [] && q.Position() > 0;
    q.IntendedDrain(Normal, Normal);
    assert q.sunk == [[v]];
    sunk, holderAfter := q.sunk, q.holder;
    drained := q.drainedUnder[|q.drainedUnder| - 1];
  }

  /** getInstance always returns the same queue; sync() before it does nothing and creates none. */
  method SingletonScenario(sink: Completion) returns (same: bool, created: bool, c: Completion)
    ensures same && !created && c == Normal
  {
    var p := new OGLPipeline();
    c := p.Sync(sink, Normal);
    created := p.theInstance != null;
    var q1 := p.GetInstance();
    var q2 := p.GetInstance();
    same := q1 == q2;
  }
}
