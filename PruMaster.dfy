/**
 The host side of the PRU SPI master (`PruSpiMaster`): a lifecycle driven by
 the `pru_inited`/`pru_enabled` flags, a non-owning handle to the shared
 context (null while unmapped), two stop flags, the monitor-thread slot and
 the callback slot; plus the two polling loops, modelled sequentially over
 the values each iteration observes.
 */
module PruMaster {
  import opened Types
  import opened PruContext

  /** The identity of a registered callback closure. */
  datatype Callback = Callback(id: nat)

  /** The buffer `get_data`/`get_data_mut` index, as written: the stored
      index itself, or `None` where indexing `buffers` panics. */
  function DataIndex(buffer: u32): (i: Option<nat>)
    ensures i.Some? <==> buffer < 2
    ensures i.Some? ==> i.value == ActiveIndex(buffer)
  {
    if buffer < 2 then Some(buffer) else None
  }

  /** A stored index of 2 makes `get_data` panic where `get_buffer` falls
      back to buffer 0. */
  lemma DataIndexPanicsOutOfRange()
    ensures DataIndex(2).None?
    ensures ActiveIndex(2) == 0
  {
  }

  class PruSpiMaster {
    var pruInited: bool
    var pruEnabled: bool
    /** Whether a raw PRU memory mapping (`pru_mem`) is held. */
    var pruMemMapped: bool
    /** The mapped shared context; `null` is the unmapped null pointer. */
    var context: PruSpiContext?
    var shouldStop: bool
    var externalShouldStop: bool
    /** Whether the monitor-thread slot (`loop_thread`) holds a handle. */
    var hasLoopThread: bool
    var callback: Option<Callback>

    /** A mapped context keeps its layout invariant. */
    ghost predicate Valid()
      reads this, if context != null then context.Repr() else {}
    {
      context != null ==> context.Valid()
    }

    /** `new`: nothing initialised, enabled, mapped, stopped or registered. */
    constructor ()
      ensures Valid()
      ensures !pruInited && !pruEnabled && !pruMemMapped && context == null
      ensures !shouldStop && !externalShouldStop
      ensures !hasLoopThread && callback == None
    {
      pruInited, pruEnabled, pruMemMapped := false, false, false;
      context := null;
      shouldStop, externalShouldStop := false, false;
      hasLoopThread := false;
      callback := None;
    }

    /** `init`: always succeeds and leaves the PRU initialised and enabled;
        a second call changes nothing. */
    method Init() returns (r: Outcome)
      modifies this
      ensures r == Ok
      ensures pruInited && pruEnabled
      ensures pruMemMapped == old(pruMemMapped) && context == old(context)
      ensures shouldStop == old(shouldStop) && externalShouldStop == old(externalShouldStop)
      ensures hasLoopThread == old(hasLoopThread) && callback == old(callback)
    {
      if !pruInited {
        pruInited := true;
      }
      if !pruEnabled {
        pruEnabled := true;
      }
      r := Ok;
    }

    /** `start`: registers `cb` when one is given (keeping the old callback
        otherwise), clears only the internal stop flag and fills the thread slot. */
    method Start(cb: Option<Callback>) returns (r: Outcome)
      modifies this
      ensures r == Ok
      ensures callback == (if cb.Some? then cb else old(callback))
      ensures !shouldStop && externalShouldStop == old(externalShouldStop)
      ensures hasLoopThread
      ensures pruInited == old(pruInited) && pruEnabled == old(pruEnabled)
      ensures pruMemMapped == old(pruMemMapped) && context == old(context)
    {
      if cb.Some? {
        callback := cb;
      }
      shouldStop := false;
      hasLoopThread := true;
      r := Ok;
    }

    /** `stop`: raises the internal stop flag and clears the callback, without waiting. */
    method Stop()
      modifies this
      ensures shouldStop && callback == None
      ensures externalShouldStop == old(externalShouldStop) && hasLoopThread == old(hasLoopThread)
      ensures pruInited == old(pruInited) && pruEnabled == old(pruEnabled)
      ensures pruMemMapped == old(pruMemMapped) && context == old(context)
    {
      shouldStop := true;
      callback := None;
    }

    /** `wait`: empties the thread slot; the join failing (`joinSucceeds`
        false, the monitor panicked) is the only error, and with an empty
        slot the call returns Ok. */
    method Wait(joinSucceeds: bool) returns (r: Outcome)
      modifies this
      ensures !hasLoopThread
      ensures r == (if old(hasLoopThread) && !joinSucceeds then Err("Failed to join loop thread") else Ok)
      ensures shouldStop == old(shouldStop) && externalShouldStop == old(externalShouldStop)
      ensures callback == old(callback)
      ensures pruInited == old(pruInited) && pruEnabled == old(pruEnabled)
      ensures pruMemMapped == old(pruMemMapped) && context == old(context)
    {
      r := Ok;
      if hasLoopThread {
        hasLoopThread := false;
        if !joinSucceeds {
          r := Err("Failed to join loop thread");
        }
      }
    }

    /** `cleanup`: disables and releases the PRU, drops the memory mapping
        and the callback; a second call is a no-op. */
    method Cleanup()
      modifies this
      ensures !pruEnabled && !pruInited && !pruMemMapped && callback == None
      ensures shouldStop == old(shouldStop) && externalShouldStop == old(externalShouldStop)
      ensures hasLoopThread == old(hasLoopThread) && context == old(context)
    {
      if pruEnabled {
        pruEnabled := false;
      }
      if pruInited {
        pruInited := false;
      }
      pruMemMapped := false;
      callback := None;
    }

    /** `Drop`: stop, then join (ignoring its error), then clean up. */
    method Drop(joinSucceeds: bool)
      modifies this
      ensures shouldStop && callback == None && !hasLoopThread
      ensures !pruEnabled && !pruInited && !pruMemMapped
      ensures externalShouldStop == old(externalShouldStop) && context == old(context)
    {
      Stop();
      var _ := Wait(joinSucceeds);
      Cleanup();
    }

    /** `should_stop`: either stop flag is raised; it is the test that ends
        the monitor loop and lets the wait return. */
    predicate ShouldStop()
      reads this
      ensures ShouldStop() <==> Stopped(Tick(shouldStop, externalShouldStop, None, callback))
      ensures ShouldStop() ==> CanReturn(WaitPoll(shouldStop, externalShouldStop, None))
      ensures !shouldStop && !externalShouldStop ==> !ShouldStop()
    {
      shouldStop || externalShouldStop
    }

    /** `is_transmission_done`: the context is mapped and its length is 0. */
    predicate IsTransmissionDone()
      reads this, context
      ensures IsTransmissionDone() <==> context != null && context.length == 0
      ensures context == null ==> !IsTransmissionDone()
    {
      if context != null then context.length == 0 else false
    }

    /** `get_buffer`: the context's buffer index, or 0 while unmapped. */
    function GetBuffer(): (r: u32)
      reads this, context
      ensures context == null ==> r == 0
      ensures context != null ==> r == context.buffer
    {
      if context != null then context.buffer else 0
    }

    /** `start_transmission`: writes `n` into the context's length and nothing
        else; a no-op while unmapped. */
    method StartTransmission(n: u32)
      requires Valid()
      modifies context
      ensures Valid()
      ensures context != null ==> context.length == n
      ensures context != null ==> context.buffer == old(context.buffer)
      ensures context != null ==> context.slaveMaxTransmissionLength == old(context.slaveMaxTransmissionLength)
      ensures context == null ==> IsTransmissionDone() == old(IsTransmissionDone())
      ensures context != null && n > 0 ==> !IsTransmissionDone()
    {
      if context != null {
        context.length := n;
      }
    }

    /** `get_data`, as written: the buffer at the stored index, `None` while
        unmapped; an out-of-range index panics, hence the precondition. */
    function GetData(): (r: Option<seq<bv8>>)
      requires Valid()
      requires context != null ==> DataIndex(context.buffer).Some?
      reads this, if context != null then context.Repr() else {}
      ensures r.None? <==> context == null
      ensures r.Some? ==> r.value == context.buffers[context.buffer][..]
      ensures r.Some? ==> |r.value| == PruDataBufferSize
    {
      if context != null then Some(context.buffers[context.buffer][..]) else None
    }

    /** `get_data` with the fallback `get_buffer` has: total on every stored index. */
    function GetActiveData(): (r: Option<seq<bv8>>)
      requires Valid()
      reads this, if context != null then context.Repr() else {}
      ensures r.None? <==> context == null
      ensures r.Some? ==> |r.value| == PruDataBufferSize
      ensures context != null && DataIndex(context.buffer).Some? ==> r == GetData()
      ensures r.Some? ==> r.value == context.GetBuffer()
      ensures context != null && context.buffer >= 2 ==> r == Some(context.buffers[0][..])
    {
      if context != null then Some(context.GetBuffer()) else None
    }

    /** `get_data_mut`, as written: the buffer at the stored index for
        writing in place, `None` while unmapped. */
    method GetDataMut() returns (r: Option<array<bv8>>)
      requires Valid()
      requires context != null ==> DataIndex(context.buffer).Some?
      ensures r.None? <==> context == null
      ensures r.Some? ==> r.value == context.buffers[context.buffer]
      ensures r.Some? ==> r.value.Length == PruDataBufferSize
    {
      if context != null {
        r := Some(context.buffers[context.buffer]);
      } else {
        r := None;
      }
    }

    /** What the loop condition of `wait_for_transmission_to_complete` reads now. */
    function Snapshot(): (p: WaitPoll)
      reads this, context
      ensures CanReturn(p) <==> ShouldStop() || IsTransmissionDone()
    {
      WaitPoll(shouldStop, externalShouldStop, if context != null then Some(context.length) else None)
    }
  }

  /** What one evaluation of the loop condition in
      `wait_for_transmission_to_complete` observes: the two stop flags and
      the context's length (`None` while unmapped). */
  datatype WaitPoll = WaitPoll(shouldStop: bool, externalShouldStop: bool, length: Option<u32>)

  /** The wait loop ends when a stop flag is raised or the transmission is done. */
  predicate CanReturn(p: WaitPoll) {
    p.shouldStop || p.externalShouldStop || p.length == Some(0)
  }

  /** `wait_for_transmission_to_complete`: `polls[i]` is what the i-th check
      of the loop condition observes, with a sleep between checks. The result
      is the index of the check at which the call returns, the first one
      that sees a stop flag or a finished transmission; `None` means it is
      still waiting after the last observed check, however many sleeps that
      took, since the sleep time bounds each pause and not the whole wait. */
  method WaitForTransmissionToComplete(polls: seq<WaitPoll>) returns (r: Option<nat>)
    ensures r.Some? ==> r.value < |polls| && CanReturn(polls[r.value])
    ensures r.Some? ==> forall k :: 0 <= k < r.value ==> !CanReturn(polls[k])
    ensures r.None? ==> forall k :: 0 <= k < |polls| ==> !CanReturn(polls[k])
  {
    var i := 0;
    while i < |polls| && !polls[i].shouldStop && !polls[i].externalShouldStop && polls[i].length != Some(0)
      invariant 0 <= i <= |polls|
      invariant forall k :: 0 <= k < i ==> !CanReturn(polls[k])
    {
      i := i + 1;
    }
    r := if i < |polls| then Some(i) else None;
  }

  /** What one iteration of the monitor loop (`loop_fn`) observes: the two
      stop flags, the context's buffer index (`None` while unmapped) and
      the callback slot. */
  datatype Tick = Tick(shouldStop: bool, externalShouldStop: bool, buffer: Option<u32>, callback: Option<Callback>)

  predicate Stopped(t: Tick) {
    t.shouldStop || t.externalShouldStop
  }

  /** `last_buffer` before iteration `i`: the last index observed through a
      mapped context, 0 before any. */
  function LastBufferBefore(ticks: seq<Tick>, i: nat): u32
    requires i <= |ticks|
  {
    if i == 0 then 0
    else if ticks[i - 1].buffer.Some? then ticks[i - 1].buffer.value
    else LastBufferBefore(ticks, i - 1)
  }

  /** Iteration `i` runs a callback: no stop flag, a mapped context whose
      index differs from the last one observed, and a registered callback. */
  predicate Fires(ticks: seq<Tick>, i: nat)
    requires i < |ticks|
  {
    && !Stopped(ticks[i])
    && ticks[i].buffer.Some?
    && ticks[i].buffer.value != LastBufferBefore(ticks, i)
    && ticks[i].callback.Some?
  }

  /** The iterations among the first `n` that run a callback, in order. */
  function FiredBefore(ticks: seq<Tick>, n: nat): seq<nat>
    requires n <= |ticks|
  {
    if n == 0 then []
    else FiredBefore(ticks, n - 1) + (if Fires(ticks, n - 1) then [n - 1] else [])
  }

  /** The monitor fires at iteration `k` of the first `n` exactly when `Fires` holds there. */
  lemma {:induction false} FiredBeforeExactly(ticks: seq<Tick>, n: nat, k: nat)
    requires n <= |ticks|
    ensures k in FiredBefore(ticks, n) <==> k < n && Fires(ticks, k)
  {
    if n > 0 {
      FiredBeforeExactly(ticks, n - 1, k);
    }
  }

  /** The fired iterations are strictly increasing: each change fires once. */
  lemma {:induction false} FiredBeforeIncreasing(ticks: seq<Tick>, n: nat)
    requires n <= |ticks|
    ensures forall a, b :: 0 <= a < b < |FiredBefore(ticks, n)| ==> FiredBefore(ticks, n)[a] < FiredBefore(ticks, n)[b]
    ensures forall a :: 0 <= a < |FiredBefore(ticks, n)| ==> FiredBefore(ticks, n)[a] < n
  {
    if n > 0 {
      FiredBeforeIncreasing(ticks, n - 1);
    }
  }

  /** An observation repeating the previous mapped observation never fires,
      and neither does an initial observation of index 0. */
  lemma NoFireOnRepeat(ticks: seq<Tick>, i: nat)
    requires i < |ticks| && ticks[i].buffer.Some?
    requires (i > 0 && ticks[i - 1].buffer == ticks[i].buffer) || (i == 0 && ticks[i].buffer == Some(0))
    ensures !Fires(ticks, i)
  {
  }

  /** `loop_fn`: `ticks[i]` is what the i-th iteration observes. Returns the
      iterations that ran the callback, the final `last_buffer`, and the
      iteration at which a stop flag ended the loop (`None`: still running
      after the last observed iteration). */
  method MonitorLoop(ticks: seq<Tick>) returns (fired: seq<nat>, lastBuffer: u32, exit: Option<nat>)
    ensures exit.Some? ==> exit.value < |ticks| && Stopped(ticks[exit.value])
    ensures exit.Some? ==> forall k :: 0 <= k < exit.value ==> !Stopped(ticks[k])
    ensures exit.None? ==> forall k :: 0 <= k < |ticks| ==> !Stopped(ticks[k])
    ensures exit.Some? ==> fired == FiredBefore(ticks, exit.value) && lastBuffer == LastBufferBefore(ticks, exit.value)
    ensures exit.None? ==> fired == FiredBefore(ticks, |ticks|) && lastBuffer == LastBufferBefore(ticks, |ticks|)
  {
    fired, lastBuffer, exit := [], 0, None;
    var i := 0;
    while i < |ticks|
      invariant 0 <= i <= |ticks|
      invariant forall k :: 0 <= k < i ==> !Stopped(ticks[k])
      invariant fired == FiredBefore(ticks, i)
      invariant lastBuffer == LastBufferBefore(ticks, i)
    {
      var t := ticks[i];
      if t.shouldStop || t.externalShouldStop {
        exit := Some(i);
        return;
      }
      if t.buffer.Some? {
        var current := t.buffer.value;
        if lastBuffer != current {
          lastBuffer := current;
          if t.callback.Some? {
            fired := fired + [i];
          }
        }
      }
      i := i + 1;
    }
  }
}
