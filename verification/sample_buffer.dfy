/**
 The flush-on-full acceleration buffer of StepCounterService.onSensorChanged:
 each vertical-acceleration reading is appended, and as soon as the buffer
 holds BUFFER_SIZE readings its contents are copied out as a batch and the
 buffer is cleared.
 */
module SampleBuffer {
  import opened Wrappers
  import opened Sequences

  /** Capacity of the buffer, and exact length of every batch handed on */
  const BUFFER_SIZE: nat := 1024

  /** One vertical-acceleration reading. Its floating-point value is never inspected here. */
  type Sample = real

  /** A copy of a full buffer */
  type Batch = seq<Sample>

  /** The buffer between two sensor callbacks never holds a full batch */
  predicate Valid(buffer: seq<Sample>)
  {
    |buffer| < BUFFER_SIZE
  }

  /** The outcome of one sensor callback: the new buffer, and the batch it flushed, if any */
  datatype Ingested = Ingested(buffer: seq<Sample>, batch: Option<Batch>)

  /**
   Appends a reading; when the buffer then holds at least BUFFER_SIZE readings,
   hands on a snapshot of it and clears it.
   */
  function Ingest(buffer: seq<Sample>, v: Sample): (r: Ingested)
    // nothing is lost, duplicated or reordered
    ensures Flatten(r.batch.ToSeq()) + r.buffer == buffer + [v]
    // the flush happens exactly when the capacity is reached
    ensures r.batch.Some? <==> |buffer| + 1 >= BUFFER_SIZE
    // a flushed batch is a copy of everything buffered, and the buffer restarts empty
    ensures r.batch.Some? ==> r.batch.value == buffer + [v] && r.buffer == []
    ensures r.batch.None? ==> r.buffer == buffer + [v]
    // from a valid buffer: the result is valid and a batch has exactly BUFFER_SIZE readings
    ensures Valid(buffer) ==> Valid(r.buffer)
    ensures Valid(buffer) && r.batch.Some? ==> |r.batch.value| == BUFFER_SIZE
  {
    var added := buffer + [v];
    if |added| >= BUFFER_SIZE then Ingested([], Some(added)) else Ingested(added, None)
  }

  /** The outcome of a stream of sensor callbacks: every batch flushed, in order, and the final buffer */
  datatype Drained = Drained(batches: seq<Batch>, buffer: seq<Sample>)

  /** Feeds the readings one at a time, in arrival order, to Ingest */
  function IngestAll(buffer: seq<Sample>, samples: seq<Sample>): (r: Drained)
    // the batches followed by what is left in the buffer are the input, in arrival order
    ensures Flatten(r.batches) + r.buffer == buffer + samples
    // from a valid buffer, every batch is full and the buffer stays valid
    ensures Valid(buffer) ==> Valid(r.buffer)
    ensures Valid(buffer) ==> forall i :: 0 <= i < |r.batches| ==> |r.batches[i]| == BUFFER_SIZE
    decreases |samples|
  {
    if samples == [] then Drained([], buffer)
    else
      var step := Ingest(buffer, samples[0]);
      var rest := IngestAll(step.buffer, samples[1..]);
      FlattenAppend(step.batch.ToSeq(), rest.batches);
      ConcatStep(buffer, samples, Flatten(step.batch.ToSeq()), step.buffer, Flatten(rest.batches), rest.buffer);
      Drained(step.batch.ToSeq() + rest.batches, rest.buffer)
  }

  /** Joins the readings handed on by the first callback to those of the rest of the stream */
  lemma ConcatStep<T>(buffer: seq<T>, samples: seq<T>, first: seq<T>, mid: seq<T>, later: seq<T>, last: seq<T>)
    requires samples != []
    requires first + mid == buffer + [samples[0]]
    requires later + last == mid + samples[1..]
    ensures (first + later) + last == buffer + samples
  {
    calc {
      (first + later) + last;
      first + (later + last);
      first + (mid + samples[1..]);
      (first + mid) + samples[1..];
      (buffer + [samples[0]]) + samples[1..];
      { assert samples == [samples[0]] + samples[1..]; }
      buffer + samples;
    }
  }

  /**
   From a valid buffer holding b readings, n more readings flush exactly
   (b + n) / BUFFER_SIZE batches and leave (b + n) % BUFFER_SIZE readings behind.
   */
  lemma BatchCount(buffer: seq<Sample>, samples: seq<Sample>)
    requires Valid(buffer)
    ensures |IngestAll(buffer, samples).batches| == (|buffer| + |samples|) / BUFFER_SIZE
    ensures |IngestAll(buffer, samples).buffer| == (|buffer| + |samples|) % BUFFER_SIZE
  {
    var r := IngestAll(buffer, samples);
    FlattenLength(r.batches, BUFFER_SIZE);
    assert |Flatten(r.batches)| + |r.buffer| == |buffer| + |samples|;
    DivModUnique(|buffer| + |samples|, |r.batches|, |r.buffer|);
  }

  lemma DivModUnique(x: nat, q: nat, m: nat)
    requires m < BUFFER_SIZE && x == q * BUFFER_SIZE + m
    ensures x / BUFFER_SIZE == q && x % BUFFER_SIZE == m
  {
  }
}
