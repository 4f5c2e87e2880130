# Podometre step-counter pipeline, in Dafny

A model of the sample pipeline of the Android pedometer's `StepCounterService`
(`app/src/main/java/com/example/podometre/utils/StepCounterService.java`). The service buffers vertical-acceleration readings from the
accelerometer. Every 1024 readings it copies the buffer out as a batch and clears it.
It stamps the batch with the time since the previous post. A background thread posts
the batch to a step-estimation server, but only if the batch shows significant activity.
If the server replies with status 200, the thread adds the reply's `steps` field to a
cumulative count and broadcasts the new count. A `RESET` command zeroes the count.

The model is a pure, sequential state machine over
`Service(buffer, cumulativeSteps, lastPostTimestamp, inFlight)`:

- `SampleBuffer`: the flush-on-full buffer (`Ingest`, and `IngestAll` over a stream).
- `SampleClock`: the elapsed-time bookkeeping of each flush, in integer milliseconds.
- `UploadClient`: the reply-to-delta rule (`ReadSteps`) and the gate deciding whether a
  batch changes the count (`Gate`). The significance test is a parameter
  `significant: Batch -> bool`.
- `StepAggregator`: `updateSteps` and `resetStepCount` on a Java `int`, with its
  32-bit wrap-around written out (`JavaInt.Wrap32`).
- `StepCounterService`: the callbacks as transition functions, and runs over a sequence
  of `Event`s. Each flush appends an upload to `inFlight`. An `UploadFinished(index, outcome)`
  event finishes any one of them, so uploads may complete in any order, as the per-flush
  threads of the source allow. The network's answer arrives as an `Outcome`: a transport
  failure, or a status code with a parsed body. Each upload carries an `id` that tells
  the uploads of different flushes apart; the service never reads it.

Facts about the code that the model keeps:

- The code never checks the delta's sign (StepCounterService.java:182, 191).
  The count is a Java `int`, so `+=` can wrap around. As a result the count is not
  monotone in general. `StepAggregator.ApplyAllNoOverflow` states when it is.
- The request carries only `verticalAccelerations` and `time` (StepCounterService.java:129-130).
- The flush test is `size >= BUFFER_SIZE` (StepCounterService.java:105). Because the buffer
  never holds a full batch between callbacks, it fires at exactly 1024 readings.

## Model

| member | source | states |
|---|---|---|
| SampleBuffer.Ingest | app/src/main/java/com/example/podometre/utils/StepCounterService.java:100-111 | appending a reading and flushing loses, duplicates and reorders nothing; the flush happens exactly when the buffer reaches BUFFER_SIZE; the batch is a copy of the full buffer and the buffer restarts empty; from a valid buffer the batch has exactly 1024 readings and the buffer stays below capacity |
| SampleBuffer.IngestAll | app/src/main/java/com/example/podometre/utils/StepCounterService.java:100-111 | over any stream of readings, the flushed batches followed by the final buffer equal the starting buffer followed by the readings in arrival order; every batch is full and the buffer stays below capacity |
| SampleBuffer.BatchCount | app/src/main/java/com/example/podometre/utils/StepCounterService.java:41 | from a valid buffer of b readings, n more readings flush exactly (b + n) / 1024 batches and leave (b + n) % 1024 readings |
| SampleClock.Flush | app/src/main/java/com/example/podometre/utils/StepCounterService.java:114-116 | a flush's interval is now minus the previous post time, and the post time becomes now; two clock readings never make the long subtraction wrap |
| SampleClock.Telescoping | app/src/main/java/com/example/podometre/utils/StepCounterService.java:61 | over any sequence of flushes, in any clock order, the intervals add up to the final post time minus the initial one |
| UploadClient.ReadSteps | app/src/main/java/com/example/podometre/utils/StepCounterService.java:169-188 | the delta is the value getInt gives for the `steps` field when the body parses and has it; it is 0 when the body fails to parse, lacks the field, or holds a value getInt rejects |
| UploadClient.ReadStepsRoundTrip | app/src/main/java/com/example/podometre/utils/StepCounterService.java:181-183 | reading a server reply `{"steps": n}`, with or without other fields, yields exactly n |
| UploadClient.ReadStepsIgnoresOtherFields | app/src/main/java/com/example/podometre/utils/StepCounterService.java:181-183 | fields other than `steps` never change the delta |
| UploadClient.Gate | app/src/main/java/com/example/podometre/utils/StepCounterService.java:120-149 | a delta is applied if and only if the batch is significant and the reply status is 200; it is then the delta read from the body |
| StepAggregator.UpdateSteps | app/src/main/java/com/example/podometre/utils/StepCounterService.java:190-195 | the new count is the old count plus the delta with Java `int` wrap-around, exactly the sum when that fits, and the broadcast carries the new count |
| StepAggregator.ResetStepCount | app/src/main/java/com/example/podometre/utils/StepCounterService.java:75-83 | the count becomes 0 and the broadcast carries 0, whatever the prior count |
| StepAggregator.ApplyAll | app/src/main/java/com/example/podometre/utils/StepCounterService.java:190-192 | a series of updates with no reset ends at the start count plus the sum of the deltas, wrapped to 32 bits |
| StepAggregator.ApplyAllOrderIndependent | app/src/main/java/com/example/podometre/utils/StepCounterService.java:118-153 | applying the same deltas in any order (any completion order of the upload threads) gives the same count |
| StepAggregator.ApplyAllNoOverflow | app/src/main/java/com/example/podometre/utils/StepCounterService.java:190-192 | with non-negative deltas and no overflow, every update leaves the count at least where it was (any shorter prefix of the updates gives a count no larger than a longer one), and it ends at exactly the start plus the deltas |
| JavaInt.Wrap32 | app/src/main/java/com/example/podometre/utils/StepCounterService.java:191 | the result is a 32-bit int congruent to the exact sum modulo 2^32, equal to it when it fits |
| JavaInt.Wrap32Absorbs | app/src/main/java/com/example/podometre/utils/StepCounterService.java:191 | wrapping an intermediate sum does not change the wrapped total |
| StepCounterService.OnCreate | app/src/main/java/com/example/podometre/utils/StepCounterService.java:40-61 | the service starts with an empty buffer, count 0, no uploads and the post time at creation, satisfying the pipeline invariant |
| StepCounterService.SendVerticalAcceleration | app/src/main/java/com/example/podometre/utils/StepCounterService.java:113-118 | the started upload carries the batch and the time since the previous post; the post time becomes now; uploads already in flight are kept |
| StepCounterService.OnSensorChanged | app/src/main/java/com/example/podometre/utils/StepCounterService.java:100-111 | the buffer behaves as Ingest; a flush starts an upload of a snapshot of the full buffer; nothing else in flight changes; the count is untouched; the invariant is preserved |
| StepCounterService.OnUploadFinished | app/src/main/java/com/example/podometre/utils/StepCounterService.java:118-153 | a finishing upload leaves the in-flight set; a non-significant batch, a transport failure or a non-200 status leaves the count alone and broadcasts nothing; otherwise the delta is added and the new count broadcast |
| StepCounterService.OnReset | app/src/main/java/com/example/podometre/utils/StepCounterService.java:64-83 | a RESET command zeroes the count and broadcasts 0, and changes nothing else |
| StepCounterService.RunPreservesInv | app/src/main/java/com/example/podometre/utils/StepCounterService.java:102-110 | under any sequence of events the buffer never holds a full batch and every upload in flight carries exactly 1024 readings |
| StepCounterService.RunBuffersAsIngestAll | app/src/main/java/com/example/podometre/utils/StepCounterService.java:102-110 | interleaved completions and resets do not disturb the buffer: the posted batches and the final buffer are those of IngestAll over the run's readings |
| StepCounterService.RunConservesSamples | app/src/main/java/com/example/podometre/utils/StepCounterService.java:103-108 | the posted batches followed by the final buffer are the starting buffer followed by every reading of the run, in arrival order; each posted batch holds exactly 1024 readings |
| StepCounterService.RunBatchCount | app/src/main/java/com/example/podometre/utils/StepCounterService.java:103-107 | from a buffer of b readings, a run delivering n readings posts exactly (b + n) / 1024 batches and leaves (b + n) % 1024 readings, whatever completions and resets are interleaved |
| StepCounterService.RunTelescopes | app/src/main/java/com/example/podometre/utils/StepCounterService.java:114-116 | the intervals posted over a run add up to the final post time minus the initial one |
| StepCounterService.RunAccumulates | app/src/main/java/com/example/podometre/utils/StepCounterService.java:190-192 | with no reset, the final count is ApplyAll of the start count and the applied deltas, in completion order |
| StepCounterService.RunSinceLastReset | app/src/main/java/com/example/podometre/utils/StepCounterService.java:64-83 | after a RESET followed by events with no reset, the count is 0 plus the deltas applied since the RESET, whatever came before it |
| StepCounterService.RunNotifiesCount | app/src/main/java/com/example/podometre/utils/StepCounterService.java:75-83 | the last broadcast of a run carries the final count, and a run that broadcasts nothing leaves the count unchanged |
| StepCounterService.RunAppliesAtMostOnce | app/src/main/java/com/example/podometre/utils/StepCounterService.java:118-153 | each upload is applied at most once: the deltas applied over a run come from pairwise distinct uploads, each in flight at the start or started during the run |

## Left out

- The standard-deviation test (`hasSignificantActivity`, `listToDoubleArray`): floating-point work done by a library. It is the parameter `significant`.
- Conversion of the interval to seconds (`/ 1000.0f`): float arithmetic. Intervals stay in integer milliseconds.
- Sample values are `real`. No float rounding is modelled, because the pipeline never computes with them.
- The per-flush `new Thread` and the unsynchronized `cumulativeSteps += steps`: concurrency. Completions are sequential events in arbitrary order, so the lost-update race is not modelled.
- HTTP and JSON: the connection, the request body's serialisation, and the parsing of the reply. The result of the exchange is an `Outcome` parameter, and the reply body is already parsed.
- `System.currentTimeMillis()`: the clock reading is a parameter of each sensor event. It is read only when a flush happens. Readings are assumed non-negative (`Millis`), which Java's `long` does not guarantee; that assumption is why the `long` subtraction in `SampleClock.Flush` never wraps.
- Android lifecycle: `onDestroy`, `onBind`, sensor registration, the handler thread and `LocalBroadcastManager`. Of `onStartCommand`, only the `RESET` action is modelled. Broadcasts appear as the values they carry.
- `MainActivity`: user interface only.
- UploadClient.ReadSteps: the conversions `getInt` performs are not modelled. A double is truncated, a numeric string is parsed, and an integer outside the `int` range is narrowed. The parsed body is assumed to hold the converted value already (`IntField(n)`), and `OtherField` stands for every value `getInt` rejects.
- An `UploadFinished` event whose index names no upload in flight changes nothing. The source has no such event.
