/** Producers behind the ingress gate, the recorder's worker, the live worker and the stopper,
    interleaved in every possible way. An action that is not enabled changes nothing, so every
    sequence of actions is a run. */
module Interleaving {
  import opened Telemetry
  import opened SessionText
  import opened SupplementaryCounts
  import opened SessionFiles
  import opened Storage
  import opened Recording
  import opened LivePipeline

  /** Where the recorder's worker is: between records, with one taken off the queue, or with
      its body appended but not its row. */
  datatype Stage = Between | Taken(p: Pending) | BodyWritten(p: Pending)

  datatype System = System(
    recorder: RecorderState,
    stage: Stage,
    recorderDone: bool,
    gate: Option<LiveItem>,        // held by a producer between its two enqueues
    liveQueue: seq<LiveItem>,
    liveTaken: Option<LiveItem>,
    live: WorkerState,
    liveStopping: bool,
    liveFailed: bool,
    liveDone: bool,
    // history
    accepted: seq<Pending>,        // by the recorder, in order
    stored: seq<Pending>,          // completely on disk, as their rows describe them
    delivered: seq<nat>,           // which of the accepted the live pipeline took
    processed: seq<LiveItem>)      // by the live worker

  datatype Action =
    | Submit(s: Submission)        // lock the gate; recorder enqueue
    | Deliver                      // live enqueue; unlock the gate
    | TakeRecord
    | WriteBody
    | WriteRow(tick: nat)
    | FailRecorder(bytes: nat)     // an exception in the worker, after some of a write
    | ExitRecorder
    | StopRecorder
    | TakeLive
    | HandleLive
    | FailLive
    | ExitLive
    | StopLive

  function LiveItemOf(p: Pending): LiveItem {
    match p
    case PendingSnapshot(r, body) => LiveGsi(r.sequence, r.relativeUs, body)
    case PendingSupplementary(r) => LiveSupplement(r.snapshot)
  }

  function Start(startTick: nat): System {
    System(Opened(startTick), Between, false, None, [], None, FRESH_WORKER, false, false, false, [], [], [], [])
  }

  predicate SubmissionFits(s: Submission) {
    match s
    case SubmitGsi(accepted, complete, ack, us, body) => accepted < U64 && complete < U64 && ack < U64 && us < U64
    case SubmitSupplement(snap) =>
      && snap.observedTick < U64 && snap.relativeUs < U64
      && (snap.rosterRevision.Some? ==> snap.rosterRevision.value < U64)
      && IntFits(snap.teams.ctAlive) && IntFits(snap.teams.tAlive) && IntFits(snap.teams.ctTotal) && IntFits(snap.teams.tTotal)
  }

  function Submitted(y: System, s: Submission): System {
    if y.gate.Some? || !SubmissionFits(s) || !Admits(y.recorder, s) then y
    else
      var p := PendingFor(y.recorder, s);
      y.(recorder := Enqueued(y.recorder, s), gate := Some(LiveItemOf(p)), accepted := y.accepted + [p])
  }

  /** The live enqueue throws once the pipeline is stopping or has failed. */
  function Delivered(y: System): System {
    if y.gate.None? || y.accepted == [] then y
    else if y.liveStopping || y.liveFailed then y.(gate := None)
    else y.(gate := None, liveQueue := y.liveQueue + [y.gate.value], delivered := y.delivered + [|y.accepted| - 1])
  }

  function RecordTaken(y: System): System {
    if !y.stage.Between? || y.recorderDone || y.recorder.queue == [] then y
    else y.(stage := Taken(y.recorder.queue[0]), recorder := y.recorder.(queue := y.recorder.queue[1..]))
  }

  function BodyAppended(y: System): System {
    if !y.stage.Taken? || !y.stage.p.PendingSnapshot? then y
    else y.(stage := BodyWritten(WithOffset(y.recorder, y.stage.p)), recorder := RawWritten(y.recorder, y.stage.p))
  }

  function RowAppended(y: System, tick: nat): System {
    if y.stage.Between? || tick >= U64 || (y.stage.Taken? && y.stage.p.PendingSnapshot?) then y
    else
      var p := WithTick(y.stage.p, tick);
      y.(stage := Between, recorder := RowWritten(y.recorder, p), stored := y.stored + [p])
  }

  /** A failed write may have appended part of what it was given. */
  function PartlyWritten(r: RecorderState, stage: Stage, bytes: nat): RecorderState {
    match stage
    case Taken(PendingSnapshot(_, body)) => r.(raw := r.raw + body[..if bytes <= |body| then bytes else |body|])
    case Taken(PendingSupplementary(s)) =>
      var row := SupplementaryRow(s) + ['\n'];
      r.(supplementary := r.supplementary + row[..if bytes <= |row| then bytes else |row|])
    case _ => r
  }

  /** The worker's handler stops the recorder and drops what is queued. */
  function RecorderFailed(y: System, bytes: nat): System {
    if y.stage.Between? || y.recorderDone then y
    else y.(recorder := PartlyWritten(y.recorder, y.stage, bytes).(failed := true, stopping := true, queue := []),
            recorderDone := true)
  }

  function RecorderExited(y: System): System {
    if y.stage.Between? && y.recorder.queue == [] && y.recorder.stopping then y.(recorderDone := true) else y
  }

  function LiveTaken(y: System): System {
    if y.liveTaken.Some? || y.liveDone || y.liveQueue == [] then y
    else y.(liveTaken := Some(y.liveQueue[0]), liveQueue := y.liveQueue[1..])
  }

  function LiveHandled(y: System): System {
    if y.liveTaken.None? || y.liveDone then y
    else y.(liveTaken := None, live := Handle(y.live, y.liveTaken.value), processed := y.processed + [y.liveTaken.value])
  }

  function LiveBroken(y: System): System {
    if y.liveTaken.None? || y.liveDone then y else y.(liveFailed := true, liveStopping := true, liveDone := true)
  }

  function LiveExited(y: System): System {
    if y.liveTaken.None? && y.liveQueue == [] && y.liveStopping then y.(liveDone := true) else y
  }

  function Next(y: System, a: Action): System {
    match a
    case Submit(s) => Submitted(y, s)
    case Deliver => Delivered(y)
    case TakeRecord => RecordTaken(y)
    case WriteBody => if y.recorderDone then y else BodyAppended(y)
    case WriteRow(tick) => if y.recorderDone then y else RowAppended(y, tick)
    case FailRecorder(bytes) => RecorderFailed(y, bytes)
    case ExitRecorder => RecorderExited(y)
    case StopRecorder => y.(recorder := y.recorder.(stopping := true))
    case TakeLive => LiveTaken(y)
    case HandleLive => LiveHandled(y)
    case FailLive => LiveBroken(y)
    case ExitLive => LiveExited(y)
    case StopLive => y.(liveStopping := true)
  }

  function Run(startTick: nat, actions: seq<Action>): System {
    if actions == [] then Start(startTick) else Next(Run(startTick, actions[..|actions| - 1]), actions[|actions| - 1])
  }

  // ----- Numbering -----

  function Snapshots(log: seq<Pending>): nat {
    if log == [] then 0
    else Snapshots(log[..|log| - 1]) + if log[|log| - 1].PendingSnapshot? then 1 else 0
  }

  /** Ingress orders are 1, 2, 3, ...; each source is numbered 1, 2, 3, ... on its own. */
  predicate Numbered(log: seq<Pending>) { forall k :: 0 <= k < |log| ==> NumberedAt(log, k) }

  predicate NumberedAt(log: seq<Pending>, k: nat)
    requires k < |log|
  {
    && PendingOrder(log[k]) == k + 1
    && match log[k]
       case PendingSnapshot(r, _) => r.sequence == Snapshots(log[..k]) + 1
       case PendingSupplementary(r) => r.snapshot.sequence == k - Snapshots(log[..k]) + 1
  }

  /** What acceptance alone determines of a record. */
  function Bare(p: Pending): Pending {
    match p
    case PendingSnapshot(r, _) => p.(gsi := r.(bodyOffset := 0, persistCompleteTick := 0))
    case PendingSupplementary(r) => p.(supplement := r.(persistCompleteTick := 0))
  }

  function BareAll(log: seq<Pending>): (r: seq<Pending>)
    ensures |r| == |log| && forall k :: 0 <= k < |r| ==> r[k] == Bare(log[k])
  {
    seq(|log|, k requires 0 <= k < |log| => Bare(log[k]))
  }

  function InHand(stage: Stage): seq<Pending> {
    if stage.Between? then [] else [Bare(stage.p)]
  }

  /** Every value has its source width, but for the counters and the offset. */
  predicate RecordFits(p: Pending) {
    match p
    case PendingSnapshot(r, body) =>
      && r.acceptedTick < U64 && r.bodyCompleteTick < U64 && r.ackSentTick < U64 && r.persistCompleteTick < U64
      && r.relativeUs < U64 && r.bodyBytes == |body| && r.bodyFilename == ""
    case PendingSupplementary(r) =>
      var s := r.snapshot;
      && r.persistCompleteTick < U64 && s.observedTick < U64 && s.relativeUs < U64
      && (s.rosterRevision.Some? ==> s.rosterRevision.value < U64)
      && IntFits(s.teams.ctAlive) && IntFits(s.teams.tAlive) && IntFits(s.teams.ctTotal) && IntFits(s.teams.tTotal)
      && ValidTeamCounts(s.teams)
  }

  predicate AllFit(log: seq<Pending>) { forall k :: 0 <= k < |log| ==> RecordFits(log[k]) }

  // ----- The recorder's invariant -----

  /** Counters count, and accepted records are bare. */
  predicate AcceptedOk(y: System) {
    && Numbered(y.accepted) && AllFit(y.accepted) && BareAll(y.accepted) == y.accepted
    && y.recorder.ingressOrder == |y.accepted|
    && y.recorder.sequence == Snapshots(y.accepted)
    && y.recorder.sequence + y.recorder.supplementarySequence == |y.accepted|
  }

  /** Persisted, in hand and queued records together are the accepted ones, in order. */
  predicate NothingLost(y: System) {
    if y.recorder.failed then BareAll(y.stored) + InHand(y.stage) <= y.accepted
    else BareAll(y.stored) + InHand(y.stage) + y.recorder.queue == y.accepted
  }

  predicate Tiled(log: seq<Pending>) {
    forall k :: 0 <= k < |log| && log[k].PendingSnapshot? ==> log[k].gsi.bodyOffset == |RawOf(log[..k])|
  }

  /** The bytes after those that rows describe: at most one body whose row is not written. */
  predicate Beyond(y: System, extra: string) {
    match y.stage
    case Between => extra == ""
    case Taken(p) =>
      if y.recorder.failed then p.PendingSnapshot? ==> extra <= p.body
      else extra == ""
    case BodyWritten(p) => p.PendingSnapshot? && extra == p.body && p.gsi.bodyOffset == |RawOf(y.stored)|
  }

  predicate RawOk(y: System) {
    && RawOf(y.stored) <= y.recorder.raw
    && Beyond(y, y.recorder.raw[|RawOf(y.stored)|..])
    && (!y.recorder.failed ==> y.recorder.rawOffset == |y.recorder.raw|)
  }

  /** Rows describe exactly the stored records, and tile a prefix of the raw bytes. */
  predicate FilesOk(y: System) {
    && Tiled(y.stored) && AllFit(y.stored)
    && y.recorder.timeline == FileText(TIMELINE_HEADER, TimelineRows(y.stored))
    && (!y.recorder.failed ==> y.recorder.supplementary == FileText(SUPPLEMENTARY_HEADER, SupplementaryRows(y.stored)))
  }

  predicate RecorderStops(y: System) {
    && (y.recorder.failed ==> y.recorderDone)
    && (y.recorderDone ==> y.recorder.stopping)
    && (y.recorderDone && !y.recorder.failed ==> y.stage.Between? && y.recorder.queue == [])
  }

  predicate RecorderInv(y: System) {
    AcceptedOk(y) && NothingLost(y) && RawOk(y) && FilesOk(y) && RecorderStops(y)
  }

  // ----- The live pipeline's invariant -----

  predicate Selects(indices: seq<nat>, n: nat) {
    && (forall k :: 0 <= k < |indices| ==> indices[k] < n)
    && (forall i, j :: 0 <= i < j < |indices| ==> indices[i] < indices[j])
  }

  function Selected(log: seq<Pending>, indices: seq<nat>): seq<LiveItem>
    requires Selects(indices, |log|)
  {
    seq(|indices|, k requires 0 <= k < |indices| => LiveItemOf(log[indices[k]]))
  }

  function Held<T>(o: Option<T>): seq<T> { if o.Some? then [o.value] else [] }

  /** The live pipeline takes records in acceptance order, and loses none that it took. */
  predicate LiveOk(y: System) {
    && Selects(y.delivered, |y.accepted|)
    && y.processed + Held(y.liveTaken) + y.liveQueue == Selected(y.accepted, y.delivered)
    && y.live == HandleAll(y.processed)
  }

  predicate GateOk(y: System) {
    && (y.gate.Some? ==>
          && y.accepted != [] && y.gate == Some(LiveItemOf(y.accepted[|y.accepted| - 1]))
          && |y.accepted| - 1 !in y.delivered)
    && (!y.liveStopping ==> |y.delivered| + |Held(y.gate)| == |y.accepted|)
  }

  predicate LiveStops(y: System) {
    && (y.liveFailed ==> y.liveDone)
    && (y.liveDone ==> y.liveStopping)
    && (y.liveDone && !y.liveFailed ==> y.liveTaken.None? && y.liveQueue == [])
  }

  predicate LiveInv(y: System) { LiveOk(y) && GateOk(y) && LiveStops(y) }
}
