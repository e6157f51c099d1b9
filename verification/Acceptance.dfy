/** Which submissions are accepted, what their records carry, and that every run which has not
    failed can still finish with all of them on disk and handled. */
module Acceptance {
  import opened SupplementaryCounts
  import opened SessionFiles
  import opened Storage
  import opened Recording
  import opened LivePipeline
  import opened Interleaving
  import opened QueueTheorems
  import opened ReplayTheorem

  // ----- What is accepted -----

  /** The recorder is running and, for a supplement, its counts make sense and its tick is not
      before the session's start. */
  ghost predicate Welcome(r: RecorderState, s: Submission) {
    && !r.stopping && !r.failed
    && match s
       case SubmitGsi(_, _, _, _, _) => true
       case SubmitSupplement(snap) =>
         && Sensible(snap.teams.ctAlive, snap.teams.ctTotal) && Sensible(snap.teams.tAlive, snap.teams.tTotal)
         && r.startTick <= snap.observedTick
  }

  lemma AdmitsExactly(r: RecorderState, s: Submission)
    ensures Admits(r, s) <==> Welcome(r, s)
  {
    if s.SubmitSupplement? {
      ValidExactly(s.snap.teams);
    }
    hide ValidTeamCounts, Sensible;
  }

  /** A record is its submission, with the numbers it was given. */
  predicate Carries(s: Submission, p: Pending) {
    match s
    case SubmitGsi(accepted, complete, ack, us, body) =>
      && p.PendingSnapshot? && p.body == body && p.gsi.bodyBytes == |body|
      && p.gsi.acceptedTick == accepted && p.gsi.bodyCompleteTick == complete && p.gsi.ackSentTick == ack
      && p.gsi.relativeUs == us && p.gsi.bodyOffset == 0 && p.gsi.persistCompleteTick == 0
    case SubmitSupplement(snap) =>
      && p.PendingSupplementary? && p.supplement.persistCompleteTick == 0
      && p.supplement.snapshot.observedTick == snap.observedTick && p.supplement.snapshot.relativeUs == snap.relativeUs
      && p.supplement.snapshot.rosterRevision == snap.rosterRevision && p.supplement.snapshot.source == snap.source
      && p.supplement.snapshot.teams == snap.teams
  }

  /** The submissions of a run that came through a free gate to a recorder that welcomed them. */
  ghost function Welcomed(startTick: nat, actions: seq<Action>): seq<Submission> {
    if actions == [] then []
    else
      var init, last := actions[..|actions| - 1], actions[|actions| - 1];
      var y := Run(startTick, init);
      Welcomed(startTick, init) +
        if last.Submit? && y.gate.None? && SubmissionFits(last.s) && Welcome(y.recorder, last.s) then [last.s] else []
  }

  lemma NextAccepts(y: System, a: Action)
    ensures
      var y' := Next(y, a);
      if a.Submit? && y.gate.None? && SubmissionFits(a.s) && Welcome(y.recorder, a.s)
      then |y'.accepted| == |y.accepted| + 1 && y'.accepted[..|y.accepted|] == y.accepted && Carries(a.s, y'.accepted[|y.accepted|])
      else y'.accepted == y.accepted
  {
    if a.Submit? {
      AdmitsExactly(y.recorder, a.s);
    }
    hide SubmissionFits, Admits, Welcome, WithTick, Handle, PartlyWritten, RowWritten, LiveItemOf;
  }

  /** In every run, what is accepted is exactly what was welcomed, in order and field by field. */
  lemma {:induction false} AcceptedExactly(startTick: nat, actions: seq<Action>)
    ensures
      var y, submitted := Run(startTick, actions), Welcomed(startTick, actions);
      |y.accepted| == |submitted| && forall k :: 0 <= k < |submitted| ==> Carries(submitted[k], y.accepted[k])
  {
    hide Next, Carries, Welcome, SubmissionFits;
    if actions != [] {
      var init, last := actions[..|actions| - 1], actions[|actions| - 1];
      AcceptedExactly(startTick, init);
      NextAccepts(Run(startTick, init), last);
    }
  }

  function CompletionTick(p: Pending): nat {
    match p
    case PendingSnapshot(r, _) => r.persistCompleteTick
    case PendingSupplementary(r) => r.persistCompleteTick
  }

  lemma StoredUnlessRow(y: System, a: Action)
    requires !a.WriteRow?
    ensures Next(y, a).stored == y.stored
  {
    hide SubmissionFits, Admits, PendingFor, LiveItemOf, Handle, PartlyWritten, Enqueued, WithOffset;
  }

  lemma RowCompletes(y: System, tick: nat)
    requires RecorderInv(y) && !y.recorderDone
    ensures
      var y', n := RowAppended(y, tick), |y.stored|;
      || y' == y
      || (&& |y'.stored| == n + 1 && y'.stored[..n] == y.stored
          && n < |y.accepted| && Bare(y'.stored[n]) == y.accepted[n]
          && CompletionTick(y'.stored[n]) == tick
          && (y'.stored[n].PendingSnapshot? ==> y'.stored[n].gsi.bodyOffset == |RawOf(y.stored)|))
  {
    RowKeepsRecorder(y, tick);
    var y', n := RowAppended(y, tick), |y.stored|;
    if y' != y {
      TickFacts(y.stage.p, tick);
      StoredPrefix(y');
      assert Tiled(y'.stored);
      hide RecorderInv, AcceptedOk, NothingLost, RawOk, FilesOk, Bare, RowWritten, WithTick, RawOf;
      assert y'.stored == y.stored + [WithTick(y.stage.p, tick)];
      assert y'.stored[..n] == y.stored;
    }
  }

  /** What a row completes is the next accepted record, with the clock's reading then and, for a
      snapshot, the offset at which its body starts. */
  lemma StoredExactly(y: System, a: Action)
    requires RecorderInv(y)
    ensures
      var y', n := Next(y, a), |y.stored|;
      || y'.stored == y.stored
      || (&& a.WriteRow? && |y'.stored| == n + 1 && y'.stored[..n] == y.stored
          && n < |y.accepted| && Bare(y'.stored[n]) == y.accepted[n]
          && CompletionTick(y'.stored[n]) == a.tick
          && (y'.stored[n].PendingSnapshot? ==> y'.stored[n].gsi.bodyOffset == |RawOf(y.stored)|))
  {
    hide RecorderInv, RowAppended, RowWritten;
    if a.WriteRow? && !y.recorderDone {
      RowCompletes(y, a.tick);
    } else if !a.WriteRow? {
      StoredUnlessRow(y, a);
    }
  }

  predicate LiveAction(a: Action) {
    a.Deliver? || a.TakeLive? || a.HandleLive? || a.FailLive? || a.ExitLive? || a.StopLive?
  }

  lemma LiveMovesAlone(y: System, a: Action)
    requires LiveAction(a)
    ensures SameRecorder(y, Next(y, a))
  {
    hide Handle, Submitted, RecordTaken, BodyAppended, RowAppended, RecorderFailed, RecorderExited;
  }

  lemma SubmitRefused(y: System, s: Submission)
    requires y.recorder.failed
    ensures Submitted(y, s) == y
  {
    hide PendingFor, LiveItemOf, Enqueued, SubmissionFits;
  }

  /** After the recorder's failure it accepts and writes nothing more. */
  lemma RecorderFailureIsFinal(y: System, a: Action)
    requires RecorderInv(y) && y.recorder.failed
    ensures
      var y' := Next(y, a);
      && y'.recorder.failed && y'.accepted == y.accepted && y'.stored == y.stored
      && y'.recorder.raw == y.recorder.raw && y'.recorder.timeline == y.recorder.timeline
      && y'.recorder.supplementary == y.recorder.supplementary
  {
    assert y.recorderDone by { assert RecorderStops(y); }
    hide RecorderInv, SubmissionFits, Submitted, BodyAppended, RowAppended, PartlyWritten, PendingFor, LiveItemOf, Enqueued, Delivered,
         LiveTaken, LiveHandled, LiveBroken, LiveExited;
    match a
    case Submit(s) => SubmitRefused(y, s);
    case TakeRecord =>
    case WriteBody =>
    case WriteRow(_) =>
    case FailRecorder(_) =>
    case ExitRecorder =>
    case StopRecorder =>
    case _ =>
      LiveMovesAlone(y, a);
      hide Next, RecordTaken, RecorderFailed, RecorderExited;
  }

  /** After the live worker's failure nothing more is delivered to it or handled. */
  lemma LiveFailureIsFinal(y: System, a: Action)
    requires LiveInv(y) && y.liveFailed
    ensures
      var y' := Next(y, a);
      y'.liveFailed && y'.delivered == y.delivered && y'.processed == y.processed && y'.live == y.live
  {
    assert LiveStops(y);
    hide LiveInv, SubmissionFits, Admits, WithTick, PartlyWritten, RowWritten, LiveItemOf, PendingFor, Handle;
  }

  // ----- Every run can finish -----

  function RunFrom(y: System, actions: seq<Action>): System
    decreases |actions|
  {
    if actions == [] then y else RunFrom(Next(y, actions[0]), actions[1..])
  }

  lemma {:induction false} RunContinues(startTick: nat, done: seq<Action>, more: seq<Action>)
    ensures Run(startTick, done + more) == RunFrom(Run(startTick, done), more)
    decreases |more|
  {
    hide Next;
    if more == [] {
      assert done + more == done;
    } else {
      var first, rest := more[0], more[1..];
      assert done + more == (done + [first]) + rest;
      assert (done + [first])[..|done|] == done;
      RunContinues(startTick, done + [first], rest);
    }
  }

  lemma OneStep(y: System, a: Action, rest: seq<Action>)
    ensures RunFrom(y, [a] + rest) == RunFrom(Next(y, a), rest)
  {
    assert ([a] + rest)[0] == a && ([a] + rest)[1..] == rest;
    hide Next;
  }

  predicate SameLive(y: System, y': System) {
    && y'.liveQueue == y.liveQueue && y'.liveTaken == y.liveTaken && y'.live == y.live && y'.liveStopping == y.liveStopping
    && y'.liveFailed == y.liveFailed && y'.liveDone == y.liveDone && y'.gate == y.gate && y'.delivered == y.delivered
    && y'.processed == y.processed && y'.accepted == y.accepted
  }

  predicate SameRecorder(y: System, y': System) {
    && y'.recorder == y.recorder && y'.stage == y.stage && y'.recorderDone == y.recorderDone
    && y'.stored == y.stored && y'.accepted == y.accepted
  }

  function RecordsLeft(y: System): nat {
    3 * |y.recorder.queue| + match y.stage case Between => 0 case BodyWritten(_) => 1 case Taken(_) => 2
  }

  function RecorderMove(y: System): Action {
    match y.stage
    case Taken(PendingSnapshot(_, _)) => WriteBody
    case Between => TakeRecord
    case _ => WriteRow(0)
  }

  lemma RecorderMoves(y: System)
    requires RecorderInv(y) && !y.recorder.failed && !y.recorderDone && RecordsLeft(y) > 0
    ensures
      var y' := Next(y, RecorderMove(y));
      SameLive(y, y') && !y'.recorder.failed && !y'.recorderDone && RecordsLeft(y') < RecordsLeft(y)
  {
    hide AcceptedOk, NothingLost, RawOk, FilesOk, TimelineRow, SupplementaryRow, WithTick, WithOffset, Submitted, Delivered,
         RecorderFailed, RecorderExited, LiveTaken, LiveHandled, LiveBroken, LiveExited;
  }

  lemma RecorderStopsCleanly(y: System)
    requires RecorderInv(y) && !y.recorder.failed && !y.recorderDone && RecordsLeft(y) == 0
    ensures
      var y' := RunFrom(y, [StopRecorder, ExitRecorder]);
      RecorderInv(y') && SameLive(y, y') && y'.recorderDone && !y'.recorder.failed
  {
    hide RecorderInv, RunFrom, Submitted, Delivered, RecordTaken, BodyAppended, RowAppended, RecorderFailed, LiveTaken, LiveHandled,
         LiveBroken, LiveExited;
    var stopped := Next(y, StopRecorder);
    NextKeepsRecorder(y, StopRecorder);
    NextKeepsRecorder(stopped, ExitRecorder);
    TwoSteps(y, StopRecorder, ExitRecorder);
  }

  lemma TwoSteps(y: System, a: Action, b: Action)
    ensures RunFrom(y, [a, b]) == Next(Next(y, a), b)
  {
    hide Next;
    assert [a, b] == [a] + ([b] + []);
    OneStep(y, a, [b] + []);
    OneStep(Next(y, a), b, []);
  }

  /** Write out what is queued, stop, exit. */
  lemma {:induction false} RecorderFinishes(y: System) returns (more: seq<Action>)
    requires RecorderInv(y) && !y.recorder.failed
    ensures var y' := RunFrom(y, more); RecorderInv(y') && SameLive(y, y') && y'.recorderDone && !y'.recorder.failed
    decreases RecordsLeft(y)
  {
    hide RecorderInv, Next, RecordsLeft, RecorderMove;
    if y.recorderDone {
      more := [];
    } else if RecordsLeft(y) > 0 {
      var a := RecorderMove(y);
      RecorderMoves(y);
      NextKeepsRecorder(y, a);
      var rest := RecorderFinishes(Next(y, a));
      more := [a] + rest;
      OneStep(y, a, rest);
      hide RunFrom;
    } else {
      RecorderStopsCleanly(y);
      more := [StopRecorder, ExitRecorder];
    }
  }

  function ItemsLeft(y: System): nat { 2 * |y.liveQueue| + if y.liveTaken.Some? then 1 else 0 }

  lemma LiveStopsCleanly(y: System)
    requires LiveInv(y) && !y.liveFailed && !y.liveDone && y.gate.None? && ItemsLeft(y) == 0
    ensures
      var y' := RunFrom(y, [StopLive, ExitLive]);
      LiveInv(y') && SameRecorder(y, y') && y'.liveDone && !y'.liveFailed && y'.gate.None? && y'.delivered == y.delivered
  {
    hide LiveInv, RunFrom, Submitted, Delivered, RecordTaken, BodyAppended, RowAppended, RecorderFailed, RecorderExited, LiveTaken,
         LiveHandled, LiveBroken;
    var stopped := Next(y, StopLive);
    NextKeepsLive(y, StopLive);
    NextKeepsLive(stopped, ExitLive);
    TwoSteps(y, StopLive, ExitLive);
  }

  /** Handle what is queued, stop, exit. */
  lemma {:induction false} LiveFinishes(y: System) returns (more: seq<Action>)
    requires LiveInv(y) && !y.liveFailed && y.gate.None?
    ensures
      var y' := RunFrom(y, more);
      LiveInv(y') && SameRecorder(y, y') && y'.liveDone && !y'.liveFailed && y'.gate.None? && y'.delivered == y.delivered
    decreases ItemsLeft(y)
  {
    hide LiveInv, Next, ItemsLeft;
    if y.liveDone {
      more := [];
    } else if ItemsLeft(y) > 0 {
      var a := if y.liveTaken.Some? then HandleLive else TakeLive;
      NextKeepsLive(y, a);
      LiveMoves(y);
      var rest := LiveFinishes(Next(y, a));
      more := [a] + rest;
      OneStep(y, a, rest);
      hide RunFrom;
    } else {
      LiveStopsCleanly(y);
      more := [StopLive, ExitLive];
    }
  }

  lemma LiveMoves(y: System)
    requires !y.liveFailed && !y.liveDone && ItemsLeft(y) > 0
    ensures
      var y' := Next(y, if y.liveTaken.Some? then HandleLive else TakeLive);
      && SameRecorder(y, y') && !y'.liveFailed && y'.gate == y.gate && y'.delivered == y.delivered
      && ItemsLeft(y') < ItemsLeft(y)
  {
    hide Handle;
  }

  lemma GateEmptied(y: System)
    requires LiveInv(y) && RecorderInv(y)
    ensures
      var y' := Next(y, Deliver);
      LiveInv(y') && RecorderInv(y') && y'.gate.None? && SameRecorder(y, y') && y'.liveFailed == y.liveFailed
  {
    hide RecorderInv, LiveOk, LiveStops, LiveItemOf, Submitted, RecordTaken, BodyAppended, RowAppended, RecorderFailed, RecorderExited,
         LiveTaken, LiveHandled, LiveBroken, LiveExited;
    NextKeepsLive(y, Deliver);
    NextKeepsRecorder(y, Deliver);
  }

  lemma RecorderFrameLive(y: System, y': System)
    requires SameLive(y, y') && LiveInv(y)
    ensures LiveInv(y')
  {
    hide HandleAll, Selected;
  }

  /** From every moment of every run without a failure, some continuation accepts nothing more and ends
      cleanly, with every accepted record on disk and every delivered one handled. */
  lemma EveryRunCanFinish(startTick: nat, actions: seq<Action>) returns (more: seq<Action>)
    requires var y := Run(startTick, actions); !y.recorder.failed && !y.liveFailed
    ensures
      var y, y' := Run(startTick, actions), Run(startTick, actions + more);
      && y'.recorderDone && !y'.recorder.failed && y'.liveDone && !y'.liveFailed && y'.gate.None?
      && y'.accepted == y.accepted
      && (!y.liveStopping ==> |y'.delivered| == |y'.accepted|)
  {
    hide Run, RecorderInv, LiveInv, RunFrom, Next;
    var y := Run(startTick, actions);
    AlwaysInv(startTick, actions);
    GateEmptied(y);
    var y1 := Next(y, Deliver);
    var first := RecorderFinishes(y1);
    var y2 := RunFrom(y1, first);
    RecorderFrameLive(y1, y2);
    var second := LiveFinishes(y2);
    more := [Deliver] + (first + second);
    OneStep(y, Deliver, first + second);
    RunFromMore(y1, first, second);
    RunContinues(startTick, actions, more);
    AllDelivered(y);
  }

  lemma AllDelivered(y: System)
    requires LiveInv(y)
    ensures !y.liveStopping ==> |Next(y, Deliver).delivered| == |y.accepted|
  {
    hide LiveOk, LiveItemOf, Submitted, RecordTaken, BodyAppended, RowAppended, RecorderFailed, RecorderExited, LiveTaken, LiveHandled,
         LiveBroken, LiveExited;
  }

  lemma {:induction false} RunFromMore(y: System, a: seq<Action>, b: seq<Action>)
    ensures RunFrom(y, a + b) == RunFrom(RunFrom(y, a), b)
    decreases |a|
  {
    hide Next;
    if a == [] {
      assert a + b == b;
    } else {
      assert (a + b)[0] == a[0] && (a + b)[1..] == a[1..] + b;
      RunFromMore(Next(y, a[0]), a[1..], b);
    }
  }
}
