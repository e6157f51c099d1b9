/** The ingress gate: recorder first, live pipeline second, in one step for everybody else. */
module Gate {
  import opened Telemetry
  import opened SupplementaryCounts
  import opened SessionFiles
  import opened Recording
  import opened LivePipeline
  import opened Interleaving

  class TelemetryIngress {
    const recorder: SessionRecorder
    const liveEvents: LiveEventPipeline

    constructor (recorder: SessionRecorder, liveEvents: LiveEventPipeline)
      ensures this.recorder == recorder && this.liveEvents == liveEvents
    {
      this.recorder := recorder;
      this.liveEvents := liveEvents;
    }

    /** None where either enqueue throws; a live refusal leaves the record with the recorder. */
    method EnqueueGsi(acceptedTick: nat, bodyCompleteTick: nat, ackSentTick: nat, relativeUs: nat, body: string)
      returns (record: Option<SnapshotRecord>)
      requires liveEvents.Valid()
      modifies recorder`sequence, recorder`ingressOrder, recorder`queue, liveEvents`queue
      ensures liveEvents.Valid()
      ensures
        var s := SubmitGsi(acceptedTick, bodyCompleteTick, ackSentTick, relativeUs, body);
        Passed(s, old(recorder.State()), recorder.State(), old(liveEvents.queue), liveEvents.queue, Accepting(liveEvents))
      ensures record.Some? ==> record.value.ingressOrder == recorder.ingressOrder && record.value.sequence == recorder.sequence
      ensures record.Some? <==> old(recorder.State()) != recorder.State() && Accepting(liveEvents)
    {
      var r := recorder.Enqueue(acceptedTick, bodyCompleteTick, ackSentTick, relativeUs, body);
      if r.None? {
        return None;
      }
      var ok := liveEvents.Enqueue(LiveGsi(r.value.sequence, r.value.relativeUs, body));
      record := if ok then r else None;
    }

    method EnqueueSupplementary(snapshot: Snapshot) returns (record: Option<SupplementaryRecord>)
      requires liveEvents.Valid()
      modifies recorder`supplementarySequence, recorder`ingressOrder, recorder`queue, liveEvents`queue
      ensures liveEvents.Valid()
      ensures
        var s := SubmitSupplement(snapshot);
        Passed(s, old(recorder.State()), recorder.State(), old(liveEvents.queue), liveEvents.queue, Accepting(liveEvents))
      ensures record.Some? ==> record.value.ingressOrder == recorder.ingressOrder
      ensures record.Some? <==> old(recorder.State()) != recorder.State() && Accepting(liveEvents)
    {
      hide ValidTeamCounts;
      var r := recorder.EnqueueSupplementary(snapshot);
      if r.None? {
        return None;
      }
      var ok := liveEvents.Enqueue(LiveSupplement(r.value.snapshot));
      record := if ok then r else None;
    }
  }

  ghost predicate Accepting(live: LiveEventPipeline)
    reads live
  {
    !live.stopping && !live.stopped && !live.workerError
  }

  /** A submission on its way through the gate: the recorder's record is what the live queue gets. */
  ghost predicate Passed(s: Submission, before: RecorderState, after: RecorderState,
                         queue: seq<LiveItem>, queue': seq<LiveItem>, accepting: bool)
  {
    if !Admits(before, s) then after == before && queue' == queue
    else
      && after == Enqueued(before, s)
      && queue' == if accepting then queue + [LiveItemOf(PendingFor(before, s))] else queue
  }

  /** With nobody in between, a call is the two gate actions of the interleavings in a row. */
  lemma CallIsTwoActions(y: System, s: Submission)
    requires y.gate.None? && SubmissionFits(s)
    ensures
      var y' := Next(Next(y, Submit(s)), Deliver);
      && y'.gate.None?
      && Passed(s, y.recorder, y'.recorder, y.liveQueue, y'.liveQueue, !y.liveStopping && !y.liveFailed)
      && y'.accepted == y.accepted + if Admits(y.recorder, s) then [PendingFor(y.recorder, s)] else []
  {
    hide SubmissionFits, Admits, PendingFor, LiveItemOf;
    assert y.accepted + [] == y.accepted;
  }
}
