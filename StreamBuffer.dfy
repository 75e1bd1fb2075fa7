/** The count-triggered batcher of the frontend (stream-buffer.ts). Chunks are
    pushed into an ordered buffer that is handed to the callback as one batch when it
    reaches `maxChunks` entries, or when the flush timer fires. The callback's own
    effect is not modelled: each call is recorded in `batches`. The timer is the flag
    `timerPending`, and its expiry is the call OnTimer. */
module StreamBufferModel {
  import opened Common

  /** The constructor's `opts`; an absent field is None. */
  datatype Options = Options(maxChunks: Option<int>, flushTimeout: Option<int>)

  const DEFAULT_MAX_CHUNKS: int := 5
  const DEFAULT_FLUSH_TIMEOUT: int := 120

  /** `if (opts?.x) this.x = opts.x`: only a truthy number (a non-zero one) overrides
      the default. */
  function Override(opt: Option<int>, default: int): (r: int)
    ensures opt.Some? && opt.value != 0 ==> r == opt.value
    ensures opt.None? || opt.value == 0 ==> r == default
  {
    if opt.Some? && opt.value != 0 then opt.value else default
  }

  /** All batches delivered so far, in delivery order, as one sequence. */
  function Flatten<T>(batches: seq<seq<T>>): seq<T>
    decreases |batches|
  {
    if |batches| == 0 then [] else Flatten(batches[..|batches| - 1]) + batches[|batches| - 1]
  }

  lemma FlattenAppend<T>(batches: seq<seq<T>>, b: seq<T>)
    ensures Flatten(batches + [b]) == Flatten(batches) + b
  {
    assert (batches + [b])[..|batches|] == batches;
  }

  class StreamBuffer<T> {
    /** Chunks added since the last flush or clear, oldest first. */
    var buffer: seq<T>
    var maxChunks: int
    var flushTimeout: int
    /** A flush is scheduled with setTimeout and has not been cancelled. */
    var timerPending: bool
    /** Every argument the callback was called with, oldest first. */
    var batches: seq<seq<T>>

    /** The buffer is flushed as soon as it reaches maxChunks, so it never holds that
        many chunks, unless it is empty (which a maxChunks of zero or less allows). */
    ghost predicate Valid()
      reads this
    {
      |buffer| < maxChunks || buffer == []
    }

    constructor (opts: Option<Options>)
      ensures buffer == [] && batches == [] && !timerPending
      ensures maxChunks == Override(if opts.Some? then opts.value.maxChunks else None, DEFAULT_MAX_CHUNKS)
      ensures flushTimeout == Override(if opts.Some? then opts.value.flushTimeout else None, DEFAULT_FLUSH_TIMEOUT)
      ensures Valid()
    {
      buffer := [];
      batches := [];
      timerPending := false;
      maxChunks := Override(if opts.Some? then opts.value.maxChunks else None, DEFAULT_MAX_CHUNKS);
      flushTimeout := Override(if opts.Some? then opts.value.flushTimeout else None, DEFAULT_FLUSH_TIMEOUT);
    }

    /** Cancels the timer; an empty buffer calls nothing. Otherwise the callback gets a
        copy of every buffered chunk in order, and the buffer is emptied before the
        call, so it stays empty even when the callback throws. */
    method Flush()
      modifies this
      ensures buffer == [] && !timerPending
      ensures old(buffer) == [] ==> batches == old(batches)
      ensures old(buffer) != [] ==> batches == old(batches) + [old(buffer)]
      ensures Flatten(batches) + buffer == Flatten(old(batches)) + old(buffer)
      ensures maxChunks == old(maxChunks) && flushTimeout == old(flushTimeout)
      ensures Valid()
    {
      timerPending := false;
      if |buffer| == 0 {
        return;
      }
      var copy := buffer;
      buffer := [];
      batches := batches + [copy];
      FlattenAppend(old(batches), copy);
    }

    /** Appends the chunk; reaching maxChunks flushes at once, otherwise the flush
        timer is (re)started. */
    method AddChunk(chunk: T)
      requires Valid()
      modifies this
      ensures Valid()
      ensures |old(buffer)| + 1 >= maxChunks ==>
        buffer == [] && batches == old(batches) + [old(buffer) + [chunk]] && !timerPending
      ensures |old(buffer)| + 1 < maxChunks ==>
        buffer == old(buffer) + [chunk] && batches == old(batches) && timerPending
      ensures Flatten(batches) + buffer == Flatten(old(batches)) + old(buffer) + [chunk]
      ensures maxChunks == old(maxChunks) && flushTimeout == old(flushTimeout)
    {
      buffer := buffer + [chunk];
      if |buffer| >= maxChunks {
        Flush();
        return;
      }
      timerPending := true;
    }

    /** The scheduled flush runs. */
    method OnTimer()
      requires timerPending
      modifies this
      ensures buffer == [] && !timerPending
      ensures old(buffer) == [] ==> batches == old(batches)
      ensures old(buffer) != [] ==> batches == old(batches) + [old(buffer)]
      ensures maxChunks == old(maxChunks) && flushTimeout == old(flushTimeout)
    {
      Flush();
    }

    /** Cancels the timer and drops the buffered chunks without calling the callback. */
    method Clear()
      modifies this
      ensures buffer == [] && !timerPending && batches == old(batches)
      ensures maxChunks == old(maxChunks) && flushTimeout == old(flushTimeout)
      ensures Valid()
    {
      timerPending := false;
      buffer := [];
    }
  }

  /** No chunk is lost, duplicated or reordered: when chunks are only ever added and
      flushed, the batches delivered so far followed by the buffer are exactly the
      chunks added, in order. */
  method AddAll<T>(sb: StreamBuffer<T>, chunks: seq<T>)
    requires sb.Valid() && sb.buffer == [] && sb.batches == []
    modifies sb
    ensures sb.Valid()
    ensures Flatten(sb.batches) + sb.buffer == chunks
    ensures |sb.buffer| < sb.maxChunks || sb.buffer == []
  {
    var i := 0;
    while i < |chunks|
      invariant 0 <= i <= |chunks|
      invariant sb.Valid()
      invariant Flatten(sb.batches) + sb.buffer == chunks[..i]
    {
      sb.AddChunk(chunks[i]);
      assert chunks[..i + 1] == chunks[..i] + [chunks[i]];
      i := i + 1;
    }
    assert chunks[..i] == chunks;
  }
}
