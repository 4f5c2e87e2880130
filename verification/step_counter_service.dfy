/**
 The sample pipeline of StepCounterService as a sequential state machine.
 Sensor callbacks fill the buffer; each flush stamps the clock and starts an
 upload, which joins the uploads in flight; the uploads finish later, one at a
 time and in any order, and a successful one updates the step count; a RESET
 command zeroes the count.
 */
module StepCounterService {
  import opened Wrappers
  import opened JavaInt
  import opened Sequences
  import opened SampleBuffer
  import SampleClock
  import opened UploadClient
  import opened StepAggregator

  /**
   What an upload thread posts: the batch and the time since the previous post
   (milliseconds). `id` tells apart the uploads of different flushes, as the
   separate thread and list copy of each flush do; nothing in the service reads it.
   */
  datatype UploadRequest = UploadRequest(id: nat, batch: Batch, elapsed: Int64)

  /** The fields of the service the pipeline reads and writes */
  datatype Service = Service(
    buffer: seq<Sample>,
    cumulativeSteps: Int32,
    lastPostTimestamp: Millis,
    inFlight: seq<UploadRequest>,
    nextId: nat)

  /**
   The buffer is never full between callbacks, every upload in flight carries a
   full batch, and the uploads in flight are distinct ones already started.
   */
  predicate Inv(s: Service)
  {
    && Valid(s.buffer)
    && (forall i :: 0 <= i < |s.inFlight| ==> |s.inFlight[i].batch| == BUFFER_SIZE)
    && (forall i :: 0 <= i < |s.inFlight| ==> s.inFlight[i].id < s.nextId)
    && (forall i, j :: 0 <= i < j < |s.inFlight| ==> s.inFlight[i].id != s.inFlight[j].id)
  }

  /** The uploads named in a sequence of uploads */
  function IdsOf(reqs: seq<UploadRequest>): set<nat>
  {
    set i | 0 <= i < |reqs| :: reqs[i].id
  }

  /** The batches of a sequence of uploads, in order */
  function BatchesOf(reqs: seq<UploadRequest>): (r: seq<Batch>)
    ensures |r| == |reqs| && forall i :: 0 <= i < |reqs| ==> r[i] == reqs[i].batch
  {
    seq(|reqs|, i requires 0 <= i < |reqs| => reqs[i].batch)
  }

  /** The reported intervals of a sequence of uploads, in order */
  function ElapsedOf(reqs: seq<UploadRequest>): (r: seq<int>)
    ensures |r| == |reqs| && forall i :: 0 <= i < |reqs| ==> r[i] == reqs[i].elapsed
  {
    seq(|reqs|, i requires 0 <= i < |reqs| => reqs[i].elapsed)
  }

  /** The service as onCreate leaves it: empty buffer, count 0, clock stamped at `now` */
  function OnCreate(now: Millis): (s: Service)
    ensures Inv(s)
    ensures s.buffer == [] && s.inFlight == []
    ensures s.cumulativeSteps == 0 && s.lastPostTimestamp == now
  {
    Service([], 0, now, [], 0)
  }

  /** A started upload, and the service after starting it */
  datatype Posted = Posted(service: Service, request: UploadRequest)

  /**
   sendVerticalAcceleration up to the thread start: measures the time since the
   previous post, moves the post time to `now`, and starts an upload of the batch.
   */
  function SendVerticalAcceleration(s: Service, batch: Batch, now: Millis): (r: Posted)
    ensures r.request.batch == batch
    ensures r.request.id == s.nextId && r.service.nextId == s.nextId + 1
    ensures s.lastPostTimestamp + r.request.elapsed == now
    ensures r.service.lastPostTimestamp == now
    ensures r.service.inFlight == s.inFlight + [r.request]
    ensures r.service.buffer == s.buffer && r.service.cumulativeSteps == s.cumulativeSteps
  {
    var tick := SampleClock.Flush(s.lastPostTimestamp, now);
    var request := UploadRequest(s.nextId, batch, tick.elapsed);
    Posted(s.(lastPostTimestamp := tick.lastPost, inFlight := s.inFlight + [request], nextId := s.nextId + 1), request)
  }

  /** The service after one sensor callback, and the upload it started, if any */
  datatype Sensed = Sensed(service: Service, posted: Option<UploadRequest>)

  /**
   onSensorChanged: buffers the reading and, when the buffer is full, hands a
   copy of it to sendVerticalAcceleration. The clock is read only on a flush.
   */
  function OnSensorChanged(s: Service, v: Sample, now: Millis): (r: Sensed)
    ensures Inv(s) ==> Inv(r.service)
    // the buffer behaves as SampleBuffer.Ingest
    ensures Ingest(s.buffer, v).batch.ToSeq() == BatchesOf(r.posted.ToSeq())
    ensures r.service.buffer == Ingest(s.buffer, v).buffer
    // a started upload is a snapshot of the full buffer, stamped with the time since the last post
    ensures r.posted.Some? ==>
              && r.posted.value.batch == s.buffer + [v]
              && s.lastPostTimestamp + r.posted.value.elapsed == now
              && r.service.lastPostTimestamp == now
    // uploads already in flight are untouched
    ensures r.service.inFlight == s.inFlight + r.posted.ToSeq()
    ensures r.posted.None? ==> r.service.lastPostTimestamp == s.lastPostTimestamp && r.service.nextId == s.nextId
    ensures r.posted.Some? ==> r.posted.value.id == s.nextId && r.service.nextId == s.nextId + 1
    ensures r.service.cumulativeSteps == s.cumulativeSteps
  {
    var ingested := Ingest(s.buffer, v);
    var s' := s.(buffer := ingested.buffer);
    match ingested.batch
    case None => Sensed(s', None)
    case Some(batch) =>
      var p := SendVerticalAcceleration(s', batch, now);
      Sensed(p.service, Some(p.request))
  }

  /** A delta applied by updateSteps, and the upload whose reply carried it */
  datatype Applied = Applied(upload: nat, delta: Int32)

  /** The service after an upload finished, the delta it applied and the count it broadcast, if any */
  datatype Finished = Finished(service: Service, applied: Option<Applied>, notified: Option<Int32>)

  /**
   The end of the upload thread for the in-flight upload at `index`: the batch is
   classified by `significant`, and a delta is applied through updateSteps only
   when the batch is significant and the reply status is 200. Finishing removes
   the upload from the uploads in flight, so no upload is applied twice.
   An index with no upload in flight changes nothing.
   */
  function OnUploadFinished(s: Service, index: nat, significant: Batch -> bool, outcome: Outcome): (r: Finished)
    ensures index >= |s.inFlight| ==> r == Finished(s, None, None)
    ensures index < |s.inFlight| ==>
              && r.service.inFlight == s.inFlight[..index] + s.inFlight[index + 1..]
              && (r.applied.Some? <==> Gate(significant(s.inFlight[index].batch), outcome).Some?)
              && (r.applied.Some? ==>
                    r.applied.value == Applied(s.inFlight[index].id, Gate(significant(s.inFlight[index].batch), outcome).value))
    ensures r.service.buffer == s.buffer && r.service.lastPostTimestamp == s.lastPostTimestamp
    ensures r.service.nextId == s.nextId
    // a dropped batch leaves the count alone and broadcasts nothing
    ensures r.applied.None? ==> r.service.cumulativeSteps == s.cumulativeSteps && r.notified.None?
    // an applied delta is added and the new count broadcast
    ensures r.applied.Some? ==>
              && r.service.cumulativeSteps == UpdateSteps(s.cumulativeSteps, r.applied.value.delta).count
              && r.notified == Some(r.service.cumulativeSteps)
    ensures Inv(s) ==> Inv(r.service)
  {
    if index >= |s.inFlight| then Finished(s, None, None)
    else
      var request := s.inFlight[index];
      var rest := s.(inFlight := s.inFlight[..index] + s.inFlight[index + 1..]);
      match Gate(significant(request.batch), outcome)
      case None => Finished(rest, None, None)
      case Some(delta) =>
        var u := UpdateSteps(s.cumulativeSteps, delta);
        Finished(rest.(cumulativeSteps := u.count), Some(Applied(request.id, delta)), Some(u.notified))
  }

  /** onStartCommand with a RESET intent: resetStepCount, which broadcasts 0 */
  function OnReset(s: Service): (r: Finished)
    ensures r.service.cumulativeSteps == 0 && r.notified == Some(0)
    ensures r.service == s.(cumulativeSteps := 0)
  {
    var u := ResetStepCount(s.cumulativeSteps);
    Finished(s.(cumulativeSteps := u.count), None, Some(u.notified))
  }

  /** Everything that can happen to the pipeline, one at a time */
  datatype Event =
    | SensorChanged(v: Sample, now: Millis)
    | UploadFinished(index: nat, outcome: Outcome)
    | ResetRequested

  /** What a run of events produced: uploads started, deltas applied and counts broadcast, in order */
  datatype Trace = Trace(posted: seq<UploadRequest>, applied: seq<Applied>, notified: seq<Int32>)

  /** The applied deltas, in order */
  function DeltasOf(applied: seq<Applied>): (r: seq<Int32>)
    ensures |r| == |applied| && forall i :: 0 <= i < |applied| ==> r[i] == applied[i].delta
  {
    seq(|applied|, i requires 0 <= i < |applied| => applied[i].delta)
  }

  function Then(t: Trace, u: Trace): Trace
  {
    Trace(t.posted + u.posted, t.applied + u.applied, t.notified + u.notified)
  }

  lemma ThenAssociative(t: Trace, u: Trace, w: Trace)
    ensures Then(Then(t, u), w) == Then(t, Then(u, w))
  {
  }

  datatype Stepped = Stepped(service: Service, trace: Trace)

  /** One event */
  function Step(s: Service, e: Event, significant: Batch -> bool): Stepped
  {
    match e
    case SensorChanged(v, now) =>
      var r := OnSensorChanged(s, v, now);
      Stepped(r.service, Trace(r.posted.ToSeq(), [], []))
    case UploadFinished(index, outcome) =>
      var r := OnUploadFinished(s, index, significant, outcome);
      Stepped(r.service, Trace([], r.applied.ToSeq(), r.notified.ToSeq()))
    case ResetRequested =>
      var r := OnReset(s);
      Stepped(r.service, Trace([], [], r.notified.ToSeq()))
  }

  /** The events, in order */
  function Run(s: Service, events: seq<Event>, significant: Batch -> bool): Stepped
    decreases |events|
  {
    if events == [] then Stepped(s, Trace([], [], []))
    else
      var first := Step(s, events[0], significant);
      var rest := Run(first.service, events[1..], significant);
      Stepped(rest.service, Then(first.trace, rest.trace))
  }

  /** The readings delivered by the sensor callbacks among the events, in order */
  function SamplesOf(events: seq<Event>): seq<Sample>
    decreases |events|
  {
    if events == [] then []
    else (if events[0].SensorChanged? then [events[0].v] else []) + SamplesOf(events[1..])
  }

  predicate NoReset(events: seq<Event>)
  {
    forall i :: 0 <= i < |events| ==> !events[i].ResetRequested?
  }

  /** Every event keeps the buffer short and the in-flight batches full */
  lemma {:induction false} RunPreservesInv(s: Service, events: seq<Event>, significant: Batch -> bool)
    requires Inv(s)
    ensures Inv(Run(s, events, significant).service)
    decreases |events|
  {
    if events != [] {
      RunPreservesInv(Step(s, events[0], significant).service, events[1..], significant);
    }
  }

  /**
   Interleaved upload completions and resets do not disturb the buffer: the
   batches posted over a run and the final buffer are exactly those of
   SampleBuffer.IngestAll over the readings of the run.
   */
  lemma {:induction false} RunBuffersAsIngestAll(s: Service, events: seq<Event>, significant: Batch -> bool)
    ensures BatchesOf(Run(s, events, significant).trace.posted) == IngestAll(s.buffer, SamplesOf(events)).batches
    ensures Run(s, events, significant).service.buffer == IngestAll(s.buffer, SamplesOf(events)).buffer
    decreases |events|
  {
    if events != [] {
      var first := Step(s, events[0], significant);
      var rest := Run(first.service, events[1..], significant);
      RunBuffersAsIngestAll(first.service, events[1..], significant);
      assert Run(s, events, significant) == Stepped(rest.service, Then(first.trace, rest.trace));
      BatchesOfAppend(first.trace.posted, rest.trace.posted);
      if events[0].SensorChanged? {
        var samples := SamplesOf(events);
        assert samples != [] && samples[0] == events[0].v && samples[1..] == SamplesOf(events[1..]);
        var step := Ingest(s.buffer, samples[0]);
        assert first.service.buffer == step.buffer;
        assert BatchesOf(first.trace.posted) == step.batch.ToSeq();
        assert IngestAll(s.buffer, samples)
            == Drained(step.batch.ToSeq() + IngestAll(step.buffer, samples[1..]).batches,
                       IngestAll(step.buffer, samples[1..]).buffer);
      } else {
        assert SamplesOf(events) == SamplesOf(events[1..]);
        assert first.trace.posted == [] && first.service.buffer == s.buffer;
        assert BatchesOf(first.trace.posted) == [];
      }
    }
  }

  lemma BatchesOfAppend(a: seq<UploadRequest>, b: seq<UploadRequest>)
    ensures BatchesOf(a + b) == BatchesOf(a) + BatchesOf(b)
  {
  }

  /**
   No reading is lost or duplicated: the posted batches followed by the final
   buffer are the starting buffer followed by every reading, in arrival order,
   and from a valid state every posted batch holds exactly BUFFER_SIZE readings.
   */
  lemma {:induction false} RunConservesSamples(s: Service, events: seq<Event>, significant: Batch -> bool)
    requires Inv(s)
    ensures var r := Run(s, events, significant);
      && Flatten(BatchesOf(r.trace.posted)) + r.service.buffer == s.buffer + SamplesOf(events)
      && forall i :: 0 <= i < |r.trace.posted| ==> |r.trace.posted[i].batch| == BUFFER_SIZE
  {
    var r := Run(s, events, significant);
    RunBuffersAsIngestAll(s, events, significant);
    var batches := IngestAll(s.buffer, SamplesOf(events)).batches;
    forall i | 0 <= i < |r.trace.posted|
      ensures |r.trace.posted[i].batch| == BUFFER_SIZE
    {
      assert r.trace.posted[i].batch == batches[i];
    }
  }

  /**
   From a valid state whose buffer holds b readings, a run delivering n readings
   posts exactly (b + n) / BUFFER_SIZE batches and leaves (b + n) % BUFFER_SIZE
   readings buffered, however the callbacks interleave with the other events.
   */
  lemma {:induction false} RunBatchCount(s: Service, events: seq<Event>, significant: Batch -> bool)
    requires Inv(s)
    ensures var r := Run(s, events, significant);
      && |r.trace.posted| == (|s.buffer| + |SamplesOf(events)|) / BUFFER_SIZE
      && |r.service.buffer| == (|s.buffer| + |SamplesOf(events)|) % BUFFER_SIZE
  {
    RunBuffersAsIngestAll(s, events, significant);
    BatchCount(s.buffer, SamplesOf(events));
  }

  /**
   The reported intervals telescope: over any run they add up to the final post
   time minus the initial one, so no interval is counted twice or dropped.
   */
  lemma {:induction false} RunTelescopes(s: Service, events: seq<Event>, significant: Batch -> bool)
    ensures var r := Run(s, events, significant);
      Sum(ElapsedOf(r.trace.posted)) == r.service.lastPostTimestamp - s.lastPostTimestamp
    decreases |events|
  {
    if events != [] {
      var first := Step(s, events[0], significant);
      var rest := Run(first.service, events[1..], significant);
      RunTelescopes(first.service, events[1..], significant);
      assert ElapsedOf(first.trace.posted + rest.trace.posted)
          == ElapsedOf(first.trace.posted) + ElapsedOf(rest.trace.posted);
      SumAppend(ElapsedOf(first.trace.posted), ElapsedOf(rest.trace.posted));
      assert Sum(ElapsedOf(first.trace.posted)) == first.service.lastPostTimestamp - s.lastPostTimestamp;
    }
  }

  /**
   With no reset, the count ends at the start count plus the applied deltas
   (with Java `int` addition), whatever order the uploads finished in.
   */
  lemma {:induction false} RunAccumulates(s: Service, events: seq<Event>, significant: Batch -> bool)
    requires NoReset(events)
    ensures var r := Run(s, events, significant);
      r.service.cumulativeSteps == ApplyAll(s.cumulativeSteps, DeltasOf(r.trace.applied))
    decreases |events|
  {
    if events != [] {
      var first := Step(s, events[0], significant);
      var rest := Run(first.service, events[1..], significant);
      RunAccumulates(first.service, events[1..], significant);
      assert Run(s, events, significant) == Stepped(rest.service, Then(first.trace, rest.trace));
      var deltas := DeltasOf(first.trace.applied + rest.trace.applied);
      if first.trace.applied != [] {
        assert deltas[1..] == DeltasOf(rest.trace.applied);
      } else {
        assert deltas == DeltasOf(rest.trace.applied);
      }
    }
  }

  /**
   Every change of the count is broadcast: the last broadcast of a run carries
   the final count, and a run that broadcasts nothing leaves the count alone.
   */
  lemma {:induction false} RunNotifiesCount(s: Service, events: seq<Event>, significant: Batch -> bool)
    ensures var r := Run(s, events, significant);
      r.service.cumulativeSteps
        == (if r.trace.notified == [] then s.cumulativeSteps else r.trace.notified[|r.trace.notified| - 1])
    decreases |events|
  {
    if events != [] {
      var first := Step(s, events[0], significant);
      var rest := Run(first.service, events[1..], significant);
      RunNotifiesCount(first.service, events[1..], significant);
      assert Run(s, events, significant) == Stepped(rest.service, Then(first.trace, rest.trace));
      var notified := first.trace.notified + rest.trace.notified;
      if rest.trace.notified != [] {
        assert notified[|notified| - 1] == rest.trace.notified[|rest.trace.notified| - 1];
      } else {
        assert notified == first.trace.notified;
        assert rest.service.cumulativeSteps == first.service.cumulativeSteps;
      }
    }
  }

  /** No two applied deltas come from the same upload */
  predicate DistinctUploads(applied: seq<Applied>)
  {
    forall i, j :: 0 <= i < j < |applied| ==> applied[i].upload != applied[j].upload
  }

  /** Every applied delta comes from one of the uploads `ids` */
  predicate AppliedFrom(applied: seq<Applied>, ids: set<nat>)
  {
    forall i :: 0 <= i < |applied| ==> applied[i].upload in ids
  }

  /**
   Each upload is applied at most once: the deltas applied over a run come from
   pairwise distinct uploads, each of them in flight at the start or started
   during the run. Uploads started during the run are new ones.
   */
  lemma {:induction false} RunAppliesAtMostOnce(s: Service, events: seq<Event>, significant: Batch -> bool)
    requires Inv(s)
    ensures DistinctUploads(Run(s, events, significant).trace.applied)
    ensures AppliedFrom(Run(s, events, significant).trace.applied,
                        IdsOf(s.inFlight) + IdsOf(Run(s, events, significant).trace.posted))
    ensures forall i :: 0 <= i < |Run(s, events, significant).trace.posted| ==>
              s.nextId <= Run(s, events, significant).trace.posted[i].id
    decreases |events|
  {
    if events != [] {
      var first := Step(s, events[0], significant);
      var rest := Run(first.service, events[1..], significant);
      StepIds(s, events[0], significant);
      RunAppliesAtMostOnce(first.service, events[1..], significant);
      assert Run(s, events, significant) == Stepped(rest.service, Then(first.trace, rest.trace));
      IdsOfAppend(first.trace.posted, rest.trace.posted);
      JoinApplied(first.trace.applied, rest.trace.applied, IdsOf(s.inFlight), IdsOf(first.service.inFlight),
                  IdsOf(first.trace.posted), first.trace.posted, rest.trace.posted, s.nextId, first.service.nextId);
    }
  }

  /** What one event does to the uploads in flight, the uploads started and the deltas applied */
  lemma StepIds(s: Service, e: Event, significant: Batch -> bool)
    requires Inv(s)
    ensures var t := Step(s, e, significant);
      && Inv(t.service)
      && s.nextId <= t.service.nextId
      && (forall k :: 0 <= k < |t.trace.posted| ==> t.trace.posted[k].id == s.nextId)
      && IdsOf(t.service.inFlight) <= IdsOf(s.inFlight) + IdsOf(t.trace.posted)
      && |t.trace.applied| <= 1
      && (t.trace.applied != [] ==>
            && t.trace.applied[0].upload in IdsOf(s.inFlight)
            && t.trace.applied[0].upload !in IdsOf(t.service.inFlight)
            && t.trace.applied[0].upload < t.service.nextId)
  {
    match e
    case SensorChanged(v, now) =>
      var t := Step(s, e, significant);
      IdsOfAppend(s.inFlight, t.trace.posted);
    case UploadFinished(index, outcome) =>
      if index < |s.inFlight| {
        IdsOfRemove(s.inFlight, index);
        assert s.inFlight[index].id in IdsOf(s.inFlight);
      }
    case ResetRequested =>
  }

  /** Joins the applied deltas of one event to those of the rest of a run */
  lemma JoinApplied(first: seq<Applied>, later: seq<Applied>, before: set<nat>, between: set<nat>,
                    startedFirst: set<nat>, postedFirst: seq<UploadRequest>, postedLater: seq<UploadRequest>,
                    n: nat, n': nat)
    requires |first| <= 1
    requires first != [] ==> first[0].upload in before && first[0].upload !in between && first[0].upload < n'
    requires between <= before + startedFirst
    requires startedFirst == IdsOf(postedFirst)
    requires forall k :: 0 <= k < |postedFirst| ==> postedFirst[k].id == n
    requires n <= n'
    requires DistinctUploads(later)
    requires AppliedFrom(later, between + IdsOf(postedLater))
    requires forall k :: 0 <= k < |postedLater| ==> n' <= postedLater[k].id
    ensures DistinctUploads(first + later)
    ensures AppliedFrom(first + later, before + (IdsOf(postedFirst) + IdsOf(postedLater)))
    ensures forall k :: 0 <= k < |postedFirst + postedLater| ==> n <= (postedFirst + postedLater)[k].id
  {
    var all := first + later;
    forall i | 0 <= i < |all|
      ensures all[i].upload in before + (IdsOf(postedFirst) + IdsOf(postedLater))
    {
      if i >= |first| {
        assert all[i] == later[i - |first|];
      }
    }
    if first != [] {
      var x := first[0].upload;
      assert x !in IdsOf(postedLater);
      forall i, j | 0 <= i < j < |all|
        ensures all[i].upload != all[j].upload
      {
        assert all[j] == later[j - 1];
        if i > 0 {
          assert all[i] == later[i - 1];
        }
      }
    } else {
      assert all == later;
    }
    forall k | 0 <= k < |postedFirst + postedLater|
      ensures n <= (postedFirst + postedLater)[k].id
    {
      if k >= |postedFirst| {
        assert (postedFirst + postedLater)[k] == postedLater[k - |postedFirst|];
      }
    }
  }

  lemma IdsOfAppend(a: seq<UploadRequest>, b: seq<UploadRequest>)
    ensures IdsOf(a + b) == IdsOf(a) + IdsOf(b)
  {
    forall x | x in IdsOf(a + b)
      ensures x in IdsOf(a) + IdsOf(b)
    {
      var i :| 0 <= i < |a + b| && (a + b)[i].id == x;
      if i >= |a| {
        assert b[i - |a|].id == x;
      } else {
        assert a[i].id == x;
      }
    }
    forall x | x in IdsOf(a)
      ensures x in IdsOf(a + b)
    {
      var i :| 0 <= i < |a| && a[i].id == x;
      assert (a + b)[i].id == x;
    }
    forall x | x in IdsOf(b)
      ensures x in IdsOf(a + b)
    {
      var i :| 0 <= i < |b| && b[i].id == x;
      assert (a + b)[|a| + i].id == x;
    }
  }

  /** Finishing the upload at `index` removes its id from the uploads in flight, and no other */
  lemma IdsOfRemove(reqs: seq<UploadRequest>, index: nat)
    requires index < |reqs|
    requires forall i, j :: 0 <= i < j < |reqs| ==> reqs[i].id != reqs[j].id
    ensures IdsOf(reqs[..index] + reqs[index + 1..]) == IdsOf(reqs) - {reqs[index].id}
  {
    var rest := reqs[..index] + reqs[index + 1..];
    forall x | x in IdsOf(rest)
      ensures x in IdsOf(reqs) - {reqs[index].id}
    {
      var i :| 0 <= i < |rest| && rest[i].id == x;
      var k := if i < index then i else i + 1;
      assert rest[i] == reqs[k];
    }
    forall x | x in IdsOf(reqs) - {reqs[index].id}
      ensures x in IdsOf(rest)
    {
      var k :| 0 <= k < |reqs| && reqs[k].id == x;
      if k < index {
        assert rest[k] == reqs[k];
      } else {
        assert rest[k - 1] == reqs[k];
      }
    }
  }

  /** A run split in two is the second part run from where the first part left off */
  lemma {:induction false} RunAppend(s: Service, a: seq<Event>, b: seq<Event>, significant: Batch -> bool)
    ensures var mid := Run(s, a, significant);
      && Run(s, a + b, significant).service == Run(mid.service, b, significant).service
      && Run(s, a + b, significant).trace == Then(mid.trace, Run(mid.service, b, significant).trace)
    decreases |a|
  {
    if a == [] {
      assert a + b == b;
    } else {
      assert (a + b)[0] == a[0] && (a + b)[1..] == a[1..] + b;
      var first := Step(s, a[0], significant);
      RunAppend(first.service, a[1..], b, significant);
      var tail := Run(first.service, a[1..], significant);
      var last := Run(tail.service, b, significant);
      assert Run(s, a + b, significant) == Stepped(last.service, Then(first.trace, Then(tail.trace, last.trace)));
      assert Run(s, a, significant) == Stepped(tail.service, Then(first.trace, tail.trace));
      ThenAssociative(first.trace, tail.trace, last.trace);
    }
  }

  /**
   The count is the sum of the deltas applied since the last reset: after a
   RESET followed by events with no reset, the count is 0 plus the deltas
   applied after the RESET, whatever happened before it.
   */
  lemma {:induction false} RunSinceLastReset(s: Service, before: seq<Event>, after: seq<Event>, significant: Batch -> bool)
    requires NoReset(after)
    ensures var mid := Run(s, before + [ResetRequested], significant).service;
      && mid.cumulativeSteps == 0
      && Run(s, before + [ResetRequested] + after, significant).service.cumulativeSteps
           == ApplyAll(0, DeltasOf(Run(mid, after, significant).trace.applied))
  {
    var mid := Run(s, before + [ResetRequested], significant).service;
    RunAppend(s, before, [ResetRequested], significant);
    RunAppend(s, before + [ResetRequested], after, significant);
    RunAccumulates(mid, after, significant);
  }
}
