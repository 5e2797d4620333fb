/** The continuous-computation protocol of core/jobs.py as core/jobs_test.py observes it,
    for the start-exploration counter the tests define: an event log, two realtime layers
    keyed `"<layer>:<entity id>"`, a batch output produced by a map/reduce over the events
    logged before the batch job was queued, and the computation's status record. The
    map/reduce runs as one step; clocks are integer parameters. */
module Jobs {
  import opened Wrappers
  import Strings

  datatype EventType = StartExploration | OtherEvent(name: string)

  /** A StartExplorationEventLogEntryModel, reduced to what the map phase reads. */
  datatype Event = Event(explorationId: string, eventType: EventType)

  /** -------- Realtime ids -------- */

  /** get_realtime_id: `'%s:%s' % (layer, entity_id)`. */
  function RealtimeId(layer: nat, entityId: string): (r: string)
    ensures layer <= 1 ==> LayerOf(r) == Some(layer) && r[2..] == entityId
  {
    var r := Strings.IntToString(layer) + ":" + entityId;
    assert layer <= 1 ==> r[..2] == (if layer == 0 then "0:" else "1:");
    r
  }

  /** The layer a realtime id names, or None for an id without a `0:` or `1:` prefix. */
  function LayerOf(id: string): (r: Option<nat>)
    ensures r.Some? <==> Strings.StartsWith(id, "0:") || Strings.StartsWith(id, "1:")
    ensures r == Some(0) <==> Strings.StartsWith(id, "0:")
    ensures r == Some(1) <==> Strings.StartsWith(id, "1:")
  {
    if Strings.StartsWith(id, "0:") then Some(0)
    else if Strings.StartsWith(id, "1:") then Some(1)
    else None
  }

  /** Realtime ids say their layer, and tell entities apart within a layer. */
  lemma RealtimeIdLayer(layer: nat, entityId: string, other: string)
    requires layer <= 1
    ensures LayerOf(RealtimeId(layer, entityId)) == Some(layer)
    ensures RealtimeId(layer, entityId) == RealtimeId(layer, other) <==> entityId == other
  {
    var a, b := RealtimeId(layer, entityId), RealtimeId(layer, other);
    assert a[..2] == (if layer == 0 then "0:" else "1:");
    if a == b {
      assert entityId == a[2..] && other == b[2..];
    }
  }

  datatype RealtimeError = InvalidRealtimeId(id: string) | LayerMismatch(layer: nat, id: string)

  /** The text of the errors the realtime model raises. */
  function RealtimeErrorMessage(err: RealtimeError): (msg: string)
    ensures err.InvalidRealtimeId? ==> Strings.StartsWith(msg, "Invalid realtime id: ") && Strings.EndsWith(msg, err.id)
    ensures err.LayerMismatch? ==>
      Strings.StartsWith(msg, "Realtime layer " + Strings.IntToString(err.layer)) &&
      Strings.EndsWith(msg, " does not match realtime id " + err.id)
  {
    match err
    case InvalidRealtimeId(id) => "Invalid realtime id: " + id
    case LayerMismatch(layer, id) => "Realtime layer " + Strings.IntToString(layer) + " does not match realtime id " + id
  }

  /** An id without a layer prefix, such as the tests' `invalid_entity_id`, names no layer. */
  lemma UnprefixedIdHasNoLayer(id: string)
    requires |id| >= 2 && id[1] != ':'
    ensures LayerOf(id) == None
  {
  }

  /** -------- The realtime layers -------- */

  type RealtimeStore = map<string, nat>

  /** The count a layer holds for an entity; an absent record counts 0. */
  function LayerCount(store: RealtimeStore, layer: nat, entityId: string): nat {
    var id := RealtimeId(layer, entityId);
    if id in store then store[id] else 0
  }

  /** What _handle_incoming_event of the test's counter writes, as written: the new
      record's count is 1 whatever the layer held before. */
  function HandledCountAsWritten(previous: nat): (r: nat)
    ensures r == 1
  {
    1
  }

  /** What the handler's docstring ("Increments the count") intends. */
  function HandledCount(previous: nat): (r: nat)
    ensures r == previous + 1
  {
    previous + 1
  }

  /** The handler's put for one layer, as written. */
  function RecordAsWritten(store: RealtimeStore, layer: nat, entityId: string): (r: RealtimeStore)
    ensures r.Keys == store.Keys + {RealtimeId(layer, entityId)}
    ensures r[RealtimeId(layer, entityId)] == 1
    ensures forall k :: k in store && k != RealtimeId(layer, entityId) ==> r[k] == store[k]
  {
    store[RealtimeId(layer, entityId) := HandledCountAsWritten(LayerCount(store, layer, entityId))]
  }

  /** The handler's put for one layer, with the increment. */
  function Record(store: RealtimeStore, layer: nat, entityId: string): (r: RealtimeStore)
    ensures r.Keys == store.Keys + {RealtimeId(layer, entityId)}
    ensures LayerCount(r, layer, entityId) == LayerCount(store, layer, entityId) + 1
    ensures forall k :: k in store && k != RealtimeId(layer, entityId) ==> r[k] == store[k]
  {
    store[RealtimeId(layer, entityId) := HandledCount(LayerCount(store, layer, entityId))]
  }

  /** _clear_inactive_realtime_layer for `layer`: every record of that layer is deleted. */
  function ClearLayer(store: RealtimeStore, layer: nat): (r: RealtimeStore)
    ensures forall id :: id in r <==> id in store && LayerOf(id) != Some(layer)
    ensures forall id :: id in r ==> r[id] == store[id]
  {
    map id | id in store && LayerOf(id) != Some(layer) :: store[id]
  }

  lemma RecordCount(store: RealtimeStore, layer: nat, entityId: string, l: nat, e: string)
    requires layer <= 1 && l <= 1
    ensures LayerCount(Record(store, layer, entityId), l, e) ==
      LayerCount(store, l, e) + (if l == layer && e == entityId then 1 else 0)
  {
    RealtimeIdLayer(l, e, entityId);
    RealtimeIdLayer(layer, entityId, e);
  }

  /** Two start events for one exploration: as written, the handler leaves the layer at
      1 and so out of step with the log, which holds 2; with the increment, the layer
      holds 2. */
  lemma HandlerDropsRepeatedEvents(e: string, layer: nat)
    requires layer <= 1
    ensures var log := [Event(e, StartExploration), Event(e, StartExploration)];
      Starts(log, e) == 2 &&
      LayerCount(RecordAsWritten(RecordAsWritten(map[], layer, e), layer, e), layer, e) == 1 &&
      !LayerMatches(RecordAsWritten(RecordAsWritten(map[], layer, e), layer, e), layer, log) &&
      LayerCount(Record(Record(map[], layer, e), layer, e), layer, e) == 2
  {
    var log := [Event(e, StartExploration), Event(e, StartExploration)];
    assert log[..1][..0] == [] && log[..1] == [Event(e, StartExploration)];
    RecordCount(map[], layer, e, layer, e);
    RecordCount(Record(map[], layer, e), layer, e, layer, e);
  }

  lemma ClearCount(store: RealtimeStore, layer: nat, l: nat, e: string)
    requires layer <= 1 && l <= 1
    ensures LayerCount(ClearLayer(store, layer), l, e) == if l == layer then 0 else LayerCount(store, l, e)
  {
    RealtimeIdLayer(l, e, e);
  }

  /** -------- Counting start events -------- */

  /** The start events for an exploration in a stretch of the log. */
  function Starts(events: seq<Event>, explorationId: string): (n: nat)
    ensures n <= |events|
  {
    if events == [] then 0
    else
      var last := if events[|events| - 1] == Event(explorationId, StartExploration) then 1 else 0;
      Starts(events[..|events| - 1], explorationId) + last
  }

  lemma {:induction false} StartsAppend(a: seq<Event>, b: seq<Event>, explorationId: string)
    ensures Starts(a + b, explorationId) == Starts(a, explorationId) + Starts(b, explorationId)
    decreases |b|
  {
    if b == [] {
      assert a + b == a;
    } else {
      assert (a + b)[..|a + b| - 1] == a + b[..|b| - 1];
      StartsAppend(a, b[..|b| - 1], explorationId);
    }
  }

  /** The layer holds, for every exploration, the start events of `events`. */
  ghost predicate LayerMatches(store: RealtimeStore, layer: nat, events: seq<Event>) {
    forall e :: LayerCount(store, layer, e) == Starts(events, e)
  }

  /** The handler's puts in both layers add one to the handled entity's count in each. */
  lemma RecordBoth(store: RealtimeStore, entityId: string, l: nat, e: string)
    requires l <= 1
    ensures LayerCount(Record(Record(store, 0, entityId), 1, entityId), l, e) ==
      LayerCount(store, l, e) + (if e == entityId then 1 else 0)
  {
    RecordCount(store, 0, entityId, l, e);
    RecordCount(Record(store, 0, entityId), 1, entityId, l, e);
  }

  lemma StartsSnoc(events: seq<Event>, ev: Event, e: string)
    ensures Starts(events + [ev], e) == Starts(events, e) + (if ev == Event(e, StartExploration) then 1 else 0)
  {
    assert (events + [ev])[..|events|] == events;
  }

  /** Handling an event in both layers keeps each layer in step with its stretch of log. */
  lemma RecordMatches(store: RealtimeStore, layer: nat, events: seq<Event>, ev: Event)
    requires layer <= 1 && LayerMatches(store, layer, events)
    ensures ev.eventType == StartExploration ==>
      LayerMatches(Record(Record(store, 0, ev.explorationId), 1, ev.explorationId), layer, events + [ev])
    ensures ev.eventType != StartExploration ==> LayerMatches(store, layer, events + [ev])
  {
    forall e ensures Starts(events + [ev], e) == Starts(events, e) + (if ev == Event(e, StartExploration) then 1 else 0) {
      StartsSnoc(events, ev, e);
    }
    if ev.eventType == StartExploration {
      forall e ensures LayerCount(Record(Record(store, 0, ev.explorationId), 1, ev.explorationId), layer, e) ==
        Starts(events + [ev], e)
      {
        RecordBoth(store, ev.explorationId, layer, e);
      }
    }
  }

  /** Clearing one layer keeps the other in step, and leaves the cleared one matching an
      empty stretch. */
  lemma ClearMatches(store: RealtimeStore, layer: nat, other: nat, events: seq<Event>)
    requires layer <= 1 && other <= 1 && layer != other && LayerMatches(store, other, events)
    ensures LayerMatches(ClearLayer(store, layer), other, events)
    ensures LayerMatches(ClearLayer(store, layer), layer, [])
  {
    forall e ensures LayerCount(ClearLayer(store, layer), other, e) == LayerCount(store, other, e) {
      ClearCount(store, layer, other, e);
    }
    forall e ensures LayerCount(ClearLayer(store, layer), layer, e) == 0 {
      ClearCount(store, layer, layer, e);
    }
  }

  /** -------- The batch job -------- */

  /** The spec of the test's reduce: the values whose event type is the start type. */
  function CountStarts(values: seq<EventType>): (n: nat)
    ensures n <= |values|
  {
    if values == [] then 0
    else CountStarts(values[..|values| - 1]) + (if values[|values| - 1] == StartExploration then 1 else 0)
  }

  /** MockStartExplorationMRJobManager.reduce: counts the start events among the values. */
  method Reduce(values: seq<EventType>) returns (startedCount: nat)
    ensures startedCount == CountStarts(values)
  {
    startedCount := 0;
    for i := 0 to |values|
      invariant startedCount == CountStarts(values[..i])
    {
      assert values[..i + 1][..i] == values[..i];
      if values[i] == StartExploration {
        startedCount := startedCount + 1;
      }
    }
    assert values[..|values|] == values;
  }

  /** The values the map phase emits under one exploration id, in log order. */
  function ValuesFor(events: seq<Event>, explorationId: string): seq<EventType> {
    if events == [] then []
    else
      var last := events[|events| - 1];
      ValuesFor(events[..|events| - 1], explorationId) +
        (if last.explorationId == explorationId then [last.eventType] else [])
  }

  lemma CountStartsSnoc(values: seq<EventType>, v: EventType)
    ensures CountStarts(values + [v]) == CountStarts(values) + (if v == StartExploration then 1 else 0)
  {
    assert (values + [v])[..|values|] == values;
  }

  /** Reducing an exploration's values counts its start events. */
  lemma {:induction false} ReduceCountsStarts(events: seq<Event>, explorationId: string)
    ensures CountStarts(ValuesFor(events, explorationId)) == Starts(events, explorationId)
    decreases |events|
  {
    if events != [] {
      var init, last := events[..|events| - 1], events[|events| - 1];
      ReduceCountsStarts(init, explorationId);
      var v := ValuesFor(init, explorationId);
      if last.explorationId == explorationId {
        CountStartsSnoc(v, last.eventType);
        assert ValuesFor(events, explorationId) == v + [last.eventType];
      } else {
        assert ValuesFor(events, explorationId) == v;
      }
    }
  }

  /** The explorations with at least one logged event: the keys the reduce runs for. */
  function Explorations(events: seq<Event>): set<string> {
    set i | 0 <= i < |events| :: events[i].explorationId
  }

  /** An exploration without logged events has no values and no starts. */
  lemma {:induction false} NoEventsNoStarts(events: seq<Event>, explorationId: string)
    requires explorationId !in Explorations(events)
    ensures ValuesFor(events, explorationId) == [] && Starts(events, explorationId) == 0
    decreases |events|
  {
    if events != [] {
      var init := events[..|events| - 1];
      assert Explorations(init) <= Explorations(events) by {
        forall x | x in Explorations(init) ensures x in Explorations(events) {
          var i :| 0 <= i < |init| && init[i].explorationId == x;
          assert events[i].explorationId == x;
        }
      }
      assert events[|events| - 1].explorationId in Explorations(events);
      NoEventsNoStarts(init, explorationId);
    }
  }

  /** The ExplorationAnnotationsModel records one batch run puts. */
  function BatchOutput(events: seq<Event>): (r: map<string, nat>)
    ensures r.Keys == Explorations(events)
    ensures forall e :: e in r ==> r[e] == Starts(events, e)
  {
    forall e | e in Explorations(events) ensures CountStarts(ValuesFor(events, e)) == Starts(events, e) {
      ReduceCountsStarts(events, e);
    }
    map e | e in Explorations(events) :: CountStarts(ValuesFor(events, e))
  }

  /** The annotation count an exploration has; an absent record counts 0. */
  function BatchCount(output: map<string, nat>, explorationId: string): nat {
    if explorationId in output then output[explorationId] else 0
  }

  /** Merging a later run's output into an earlier one's: with the later run covering a longer
      prefix of the log, every exploration reads the later prefix's count. */
  lemma MergeOutput(output: map<string, nat>, events: seq<Event>, covered: nat, snapshot: nat)
    requires covered <= snapshot <= |events|
    requires forall e :: BatchCount(output, e) == Starts(events[..covered], e)
    ensures forall e :: BatchCount(output + BatchOutput(events[..snapshot]), e) == Starts(events[..snapshot], e)
  {
    forall e ensures BatchCount(output + BatchOutput(events[..snapshot]), e) == Starts(events[..snapshot], e) {
      if e !in Explorations(events[..snapshot]) {
        NoEventsNoStarts(events[..snapshot], e);
        assert events[..snapshot] == events[..covered] + events[covered..snapshot];
        StartsAppend(events[..covered], events[covered..snapshot], e);
      }
    }
  }

  /** -------- The computation -------- */

  datatype StatusCode = Idle | Running

  /** The batch job last queued: the length of the log when it was queued (the map phase
      reads only entities created before), and whether it has finished. */
  datatype BatchJob = BatchJob(snapshot: nat, finished: bool)

  /** One entry of get_continuous_computations_info. */
  datatype ComputationInfo = ComputationInfo(
    activeRealtimeLayerIndex: nat, computationType: string, statusCode: string,
    isStartable: bool, isStoppable: bool,
    lastFinishedMsec: Option<int>, lastStartedMsec: Option<int>, lastStoppedMsec: Option<int>)

  /** The status code as get_continuous_computations_info spells it. */
  function StatusName(code: StatusCode): (r: string)
    ensures r == "idle" <==> code == Idle
    ensures r == "running" <==> code == Running
  {
    match code
    case Idle => "idle"
    case Running => "running"
  }

  datatype ComputationError = AlreadyRunning(computation: string)

  /** The text of the exception start_computation raises for a running computation. */
  function ErrorMessage(err: ComputationError): (msg: string)
    ensures Strings.StartsWith(msg, "Attempted to start computation " + err.computation)
    ensures Strings.EndsWith(msg, ", which is already running")
  {
    "Attempted to start computation " + err.computation + ", which is already running"
  }

  class ContinuousComputation {
    const name: string
    var activeLayer: nat
    var status: StatusCode
    var lastStarted: Option<int>
    var lastFinished: Option<int>
    var lastStopped: Option<int>
    var events: seq<Event>
    var realtime: RealtimeStore
    var output: map<string, nat>
    var job: Option<BatchJob>
    /** The length of the log the batch output covers. */
    ghost var covered: nat

    /** The batch output counts the covered prefix of the log and the active layer the rest. */
    ghost predicate Settled()
      reads this
    {
      activeLayer <= 1 && covered <= |events| &&
      (forall e :: BatchCount(output, e) == Starts(events[..covered], e)) &&
      LayerMatches(realtime, activeLayer, events[covered..])
    }

    /** Besides, while a batch job is queued the inactive layer counts what came after the
        job's snapshot. */
    ghost predicate Valid()
      reads this
    {
      Settled() &&
      (job.Some? && !job.value.finished ==>
        covered <= job.value.snapshot <= |events| &&
        LayerMatches(realtime, 1 - activeLayer, events[job.value.snapshot..]))
    }

    /** A fresh ContinuousComputationModel. */
    constructor(name: string)
      ensures Valid() && this.name == name && events == [] && realtime == map[] && output == map[]
      ensures activeLayer == 0 && status == Idle && job == None
      ensures lastStarted == None && lastFinished == None && lastStopped == None
    {
      this.name := name;
      activeLayer := 0;
      status := Idle;
      lastStarted, lastFinished, lastStopped := None, None, None;
      events, realtime, output, job := [], map[], map[], None;
      covered := 0;
    }

    /** get_count: the batch count plus the active layer's count, each 0 when absent;
        under the protocol this is the number of start events logged. */
    function GetCount(explorationId: string): (r: nat)
      reads this
      requires Valid()
      ensures r == Starts(events, explorationId)
    {
      assert events == events[..covered] + events[covered..];
      StartsAppend(events[..covered], events[covered..], explorationId);
      BatchCount(output, explorationId) + LayerCount(realtime, activeLayer, explorationId)
    }

    /** The realtime model's get: refuses an id without a layer prefix. */
    function GetRealtime(id: string): (r: Result<Option<nat>, RealtimeError>)
      reads this
      ensures LayerOf(id).None? <==> r == Err(InvalidRealtimeId(id))
      ensures r.Ok? ==> (r.value.Some? <==> id in realtime) && (r.value.Some? ==> r.value.value == realtime[id])
    {
      if LayerOf(id).None? then Err(InvalidRealtimeId(id))
      else if id in realtime then Ok(Some(realtime[id])) else Ok(None)
    }

    /** An event is logged and, when it is a start event, handled in both layers. */
    method HandleEvent(ev: Event)
      requires Valid()
      modifies this`events, this`realtime
      ensures Valid() && events == old(events) + [ev]
      ensures ev.eventType == StartExploration ==>
        realtime == Record(Record(old(realtime), 0, ev.explorationId), 1, ev.explorationId)
      ensures ev.eventType != StartExploration ==> realtime == old(realtime)
      ensures unchanged(this`activeLayer, this`status, this`output, this`job)
      ensures forall e :: LayerCount(realtime, 0, e) == LayerCount(old(realtime), 0, e) + (if ev == Event(e, StartExploration) then 1 else 0)
      ensures forall e :: LayerCount(realtime, 1, e) == LayerCount(old(realtime), 1, e) + (if ev == Event(e, StartExploration) then 1 else 0)
    {
      var active := activeLayer;
      assert (events + [ev])[..covered] == events[..covered];
      assert (events + [ev])[covered..] == events[covered..] + [ev];
      RecordMatches(realtime, active, events[covered..], ev);
      if job.Some? && !job.value.finished {
        assert (events + [ev])[job.value.snapshot..] == events[job.value.snapshot..] + [ev];
        RecordMatches(realtime, 1 - active, events[job.value.snapshot..], ev);
      }
      forall l: nat, e | l <= 1 ensures LayerCount(Record(Record(realtime, 0, ev.explorationId), 1, ev.explorationId), l, e) ==
        LayerCount(realtime, l, e) + (if e == ev.explorationId then 1 else 0)
      {
        RecordBoth(realtime, ev.explorationId, l, e);
      }
      events := events + [ev];
      if ev.eventType == StartExploration {
        realtime := Record(Record(realtime, 0, ev.explorationId), 1, ev.explorationId);
      }
    }

    /** _kickoff_batch_job: queues a batch job over the log as it stands; a job queued
        earlier is no longer tracked. */
    method KickoffBatchJob()
      requires Settled() && LayerMatches(realtime, 1 - activeLayer, [])
      modifies this`job
      ensures Valid() && job == Some(BatchJob(|events|, false))
    {
      assert events[|events|..] == [];
      job := Some(BatchJob(|events|, false));
    }

    /** start_computation: refuses a running computation; otherwise marks it running,
        clears the inactive layer and queues a batch job. */
    method StartComputation(now: int) returns (r: Result<(), ComputationError>)
      requires Valid()
      modifies this`status, this`lastStarted, this`realtime, this`job
      ensures Valid()
      ensures old(status) == Running ==>
        r == Err(AlreadyRunning(name)) && unchanged(this`status, this`realtime, this`job, this`lastStarted)
      ensures old(status) == Idle ==>
        r.Ok? && status == Running && lastStarted == Some(now) &&
        realtime == ClearLayer(old(realtime), 1 - activeLayer) && job == Some(BatchJob(|events|, false)) &&
        JobIsActive()
      ensures events == old(events) && output == old(output) && activeLayer == old(activeLayer)
    {
      if status != Idle {
        return Err(AlreadyRunning(name));
      }
      status := Running;
      lastStarted := Some(now);
      ClearInactiveLayer();
      KickoffBatchJob();
      r := Ok(());
    }

    /** _clear_inactive_realtime_layer: deletes every record of the inactive layer. */
    method ClearInactiveLayer()
      requires Settled()
      modifies this`realtime
      ensures Settled() && LayerMatches(realtime, 1 - activeLayer, [])
      ensures realtime == ClearLayer(old(realtime), 1 - activeLayer)
    {
      ClearMatches(realtime, 1 - activeLayer, activeLayer, events[covered..]);
      realtime := ClearLayer(realtime, 1 - activeLayer);
    }

    /** The batch job runs to completion: its output is stored, the active layer switches
        to the one that kept counting since the job was queued, and the other is cleared. */
    method CompleteBatchJob(now: int)
      requires Valid()
      modifies this`output, this`realtime, this`activeLayer, this`covered, this`job, this`lastFinished
      ensures Valid() && events == old(events) && status == old(status)
      ensures !JobIsActive() && (old(job).Some? ==> JobHasFinished())
      ensures !(old(job).Some? && !old(job).value.finished) ==>
        unchanged(this`output, this`realtime, this`activeLayer, this`job, this`lastFinished)
      ensures old(job).Some? && !old(job).value.finished ==>
        output == old(output) + BatchOutput(events[..old(job).value.snapshot]) &&
        activeLayer == 1 - old(activeLayer) &&
        realtime == ClearLayer(old(realtime), old(activeLayer)) &&
        job == Some(BatchJob(old(job).value.snapshot, true)) && lastFinished == Some(now)
    {
      if job.None? || job.value.finished {
        return;
      }
      var snapshot := job.value.snapshot;
      MergeOutput(output, events, covered, snapshot);
      ClearMatches(realtime, activeLayer, 1 - activeLayer, events[snapshot..]);
      output := output + BatchOutput(events[..snapshot]);
      realtime := ClearLayer(realtime, activeLayer);
      activeLayer := 1 - activeLayer;
      covered := snapshot;
      job := Some(BatchJob(snapshot, true));
      lastFinished := Some(now);
    }

    /** stop_computation: the computation becomes idle. */
    method StopComputation(now: int)
      requires Valid()
      modifies this`status, this`lastStopped
      ensures Valid() && status == Idle && lastStopped == Some(now)
    {
      status := Idle;
      lastStopped := Some(now);
    }

    /** The realtime model's put: the layer must be the one the id names. */
    method PutRealtime(id: string, count: nat, layer: nat) returns (r: Result<(), RealtimeError>)
      modifies this`realtime
      ensures LayerOf(id) != Some(layer) ==> r == Err(LayerMismatch(layer, id)) && realtime == old(realtime)
      ensures LayerOf(id) == Some(layer) ==> r.Ok? && realtime == old(realtime)[id := count]
    {
      if LayerOf(id) != Some(layer) {
        return Err(LayerMismatch(layer, id));
      }
      realtime := realtime[id := count];
      r := Ok(());
    }

    /** is_active of the batch job last queued: queued and not yet finished. */
    function JobIsActive(): (r: bool)
      reads this
      ensures r <==> job.Some? && !job.value.finished
      ensures r ==> !JobHasFinished()
    {
      job.Some? && !job.value.finished
    }

    /** has_finished of the batch job last queued. */
    function JobHasFinished(): (r: bool)
      reads this
      ensures r <==> job.Some? && job.value.finished
    {
      job.Some? && job.value.finished
    }

    /** The computation's entry of get_continuous_computations_info. */
    function Info(): (r: ComputationInfo)
      reads this
      ensures r.isStartable <==> status == Idle
      ensures r.isStoppable <==> status == Running
      ensures r.statusCode == "idle" <==> status == Idle
      ensures r.activeRealtimeLayerIndex == activeLayer && r.computationType == name
      ensures r.lastStartedMsec == lastStarted && r.lastFinishedMsec == lastFinished && r.lastStoppedMsec == lastStopped
    {
      ComputationInfo(activeLayer, name, StatusName(status), status == Idle, status == Running,
                      lastFinished, lastStarted, lastStopped)
    }

    /** The messages on_batch_job_failure and on_batch_job_canceled log. */
    function FailureMessage(): (msg: string)
      reads this
      ensures Strings.StartsWith(msg, "Job " + name + " ") && Strings.EndsWith(msg, " failed.")
      ensures |msg| == |name| + 12
    {
      "Job " + name + " failed."
    }

    function CanceledMessage(): (msg: string)
      reads this
      ensures Strings.StartsWith(msg, "Job " + name + " ") && Strings.EndsWith(msg, " canceled.")
      ensures |msg| == |name| + 14
    {
      "Job " + name + " canceled."
    }
  }

  datatype CreateError = AbstractBaseClass(className: string)

  function CreateErrorMessage(err: CreateError): (msg: string)
    ensures Strings.StartsWith(msg, "Tried to directly create a job using the abstract base manager class " + err.className)
    ensures Strings.EndsWith(msg, ", which is not allowed.")
  {
    "Tried to directly create a job using the abstract base manager class " + err.className + ", which is not allowed."
  }

  /** create_new: refused for a manager listed among the abstract base classes. */
  function CreateNew(className: string, abstractBaseClasses: set<string>): (r: Result<(), CreateError>)
    ensures r.Err? <==> className in abstractBaseClasses
    ensures r.Err? ==> r.error.className == className
  {
    if className in abstractBaseClasses then Err(AbstractBaseClass(className)) else Ok(())
  }

  /** Creating a job through a manager listed as abstract is refused with the message the
      test expects; any other manager creates its job. */
  lemma CreateNewMessage(className: string, abstractBaseClasses: set<string>)
    ensures className in abstractBaseClasses ==>
      CreateNew(className, abstractBaseClasses).Err? &&
      CreateErrorMessage(CreateNew(className, abstractBaseClasses).error) ==
        "Tried to directly create a job using the abstract base manager class " + className + ", which is not allowed."
    ensures className !in abstractBaseClasses ==> CreateNew(className, abstractBaseClasses) == Ok(())
  {
  }

  /** -------- The scenarios of the continuous-computation tests -------- */

  /** The two records one start event leaves, one per layer, each counting 1. */
  lemma OneEventRecords(e: string)
    ensures Record(Record(map[], 0, e), 1, e) == map[RealtimeId(0, e) := 1, RealtimeId(1, e) := 1]
    ensures RealtimeId(0, e) != RealtimeId(1, e)
  {
    RealtimeIdLayer(0, e, e);
    RealtimeIdLayer(1, e, e);
  }

  /** A fresh computation reports the test's info record and a count of 0; one start event
      makes the count 1 and puts a record counting 1 into each realtime layer. */
  method RecordEvent(explorationId: string)
    returns (c: ContinuousComputation, info: ComputationInfo, before: nat, afterEvent: nat)
    ensures fresh(c) && c.Valid() && c.events == [Event(explorationId, StartExploration)]
    ensures c.output == map[] && c.activeLayer == 0 && c.status == Idle && c.job == None
    ensures c.name == "StartExplorationEventCounter"
    ensures c.realtime == map[RealtimeId(0, explorationId) := 1, RealtimeId(1, explorationId) := 1]
    ensures info == ComputationInfo(0, "StartExplorationEventCounter", "idle", true, false, None, None, None)
    ensures before == 0 && afterEvent == 1
  {
    c := new ContinuousComputation("StartExplorationEventCounter");
    info := c.Info();
    before := c.GetCount(explorationId);
    var ev := Event(explorationId, StartExploration);
    c.HandleEvent(ev);
    OneEventRecords(explorationId);
    assert c.events == [ev];
    afterEvent := c.GetCount(explorationId);
  }

  /** The first half of the workflow: after the event, starting the computation keeps
      layer 0, clears layer 1 and queues a batch job over the one event, which is active
      and not finished. */
  method RecordAndStart(explorationId: string)
    returns (c: ContinuousComputation, info: ComputationInfo, before: nat, afterEvent: nat,
             layer1AfterStart: Result<Option<nat>, RealtimeError>, activeAfterStart: bool, finishedAfterStart: bool)
    ensures fresh(c) && c.Valid() && c.events == [Event(explorationId, StartExploration)]
    ensures c.output == map[] && c.activeLayer == 0 && c.job == Some(BatchJob(1, false))
    ensures c.realtime == map[RealtimeId(0, explorationId) := 1]
    ensures info == ComputationInfo(0, "StartExplorationEventCounter", "idle", true, false, None, None, None)
    ensures before == 0 && afterEvent == 1 && layer1AfterStart == Ok(None)
    ensures activeAfterStart && !finishedAfterStart
  {
    c, info, before, afterEvent := RecordEvent(explorationId);
    var id0, id1 := RealtimeId(0, explorationId), RealtimeId(1, explorationId);
    RealtimeIdLayer(0, explorationId, explorationId);
    RealtimeIdLayer(1, explorationId, explorationId);
    var r := c.StartComputation(10);
    assert c.realtime == map[id0 := 1] by {
      assert forall id :: id in c.realtime <==> id == id0;
    }
    layer1AfterStart := c.GetRealtime(id1);
    activeAfterStart := c.JobIsActive();
    finishedAfterStart := c.JobHasFinished();
  }

  /** The whole workflow: after the batch run the job is finished and no longer active,
      the annotation holds the count, the total is still 1 and both layers are empty. */
  method Workflow(explorationId: string)
    returns (info: ComputationInfo, before: nat, afterEvent: nat, layer1AfterStart: Result<Option<nat>, RealtimeError>,
             activeAfterStart: bool, finishedAfterStart: bool, activeAfterBatch: bool, finishedAfterBatch: bool,
             annotation: nat, afterBatch: nat,
             layer0AfterBatch: Result<Option<nat>, RealtimeError>, layer1AfterBatch: Result<Option<nat>, RealtimeError>)
    ensures info == ComputationInfo(0, "StartExplorationEventCounter", "idle", true, false, None, None, None)
    ensures before == 0 && afterEvent == 1 && layer1AfterStart == Ok(None)
    ensures activeAfterStart && !finishedAfterStart && !activeAfterBatch && finishedAfterBatch
    ensures annotation == 1 && afterBatch == 1 && layer0AfterBatch == Ok(None) && layer1AfterBatch == Ok(None)
  {
    var c;
    c, info, before, afterEvent, layer1AfterStart, activeAfterStart, finishedAfterStart := RecordAndStart(explorationId);
    var ev := Event(explorationId, StartExploration);
    var id0, id1 := RealtimeId(0, explorationId), RealtimeId(1, explorationId);
    RealtimeIdLayer(0, explorationId, explorationId);
    RealtimeIdLayer(1, explorationId, explorationId);
    c.CompleteBatchJob(20);
    activeAfterBatch := c.JobIsActive();
    finishedAfterBatch := c.JobHasFinished();
    assert c.events[..1] == [ev];
    assert [ev][0].explorationId == explorationId;
    annotation := BatchCount(c.output, explorationId);
    afterBatch := c.GetCount(explorationId);
    assert id0 !in c.realtime && id1 !in c.realtime;
    layer0AfterBatch := c.GetRealtime(id0);
    layer1AfterBatch := c.GetRealtime(id1);
  }

  /** A batch job queued before an event does not count it, yet the total stays 1. */
  method EventDuringBatch(explorationId: string)
    returns (duringJob: nat, afterJob: nat, annotated: bool)
    ensures duringJob == 1 && afterJob == 1 && !annotated
  {
    var c := new ContinuousComputation("StartExplorationEventCounter");
    c.KickoffBatchJob();
    c.HandleEvent(Event(explorationId, StartExploration));
    duringJob := c.GetCount(explorationId);
    c.CompleteBatchJob(20);
    afterJob := c.GetCount(explorationId);
    annotated := explorationId in c.output;
    assert c.events[..0] == [];
  }

  /** A second start while the first batch run is queued is refused. */
  method StartTwice() returns (first: Result<(), ComputationError>, second: Result<(), ComputationError>)
    ensures first.Ok? && second == Err(AlreadyRunning("StartExplorationEventCounter"))
  {
    var c := new ContinuousComputation("StartExplorationEventCounter");
    first := c.StartComputation(10);
    second := c.StartComputation(11);
  }
}
