/** What every interleaving keeps: nothing accepted is lost or reordered, and the rows on
    disk always describe bytes that are already there. */
module QueueTheorems {
  import opened SessionText
  import opened SessionFiles
  import opened Storage
  import opened Recording
  import opened LivePipeline
  import opened Interleaving

  // ----- Acceptance -----

  lemma SnapshotsMore(log: seq<Pending>, p: Pending)
    ensures Snapshots(log + [p]) == Snapshots(log) + if p.PendingSnapshot? then 1 else 0
  {
  }

  lemma SameNumber(log: seq<Pending>, p: Pending, k: nat)
    requires k < |log| && NumberedAt(log, k)
    ensures NumberedAt(log + [p], k)
  {
    assert (log + [p])[..k] == log[..k] && (log + [p])[k] == log[k];
    hide Snapshots, PendingOrder;
  }

  lemma NumberedMore(log: seq<Pending>, p: Pending)
    requires Numbered(log)
    requires PendingOrder(p) == |log| + 1
    requires match p
      case PendingSnapshot(r, _) => r.sequence == Snapshots(log) + 1
      case PendingSupplementary(r) => r.snapshot.sequence == |log| - Snapshots(log) + 1
    ensures Numbered(log + [p])
  {
    hide Snapshots, PendingOrder;
    var all := log + [p];
    forall k | 0 <= k < |all| ensures NumberedAt(all, k) {
      if k < |log| {
        SameNumber(log, p, k);
      } else {
        assert all[..k] == log;
      }
    }
  }

  lemma SnapshotsBound(log: seq<Pending>)
    ensures Snapshots(log) <= |log|
  {
  }

  lemma BareMore(log: seq<Pending>, p: Pending)
    ensures BareAll(log + [p]) == BareAll(log) + [Bare(p)]
    ensures AllFit(log + [p]) <==> AllFit(log) && RecordFits(p)
  {
    var all := log + [p];
    forall k | 0 <= k < |log| ensures all[k] == log[k] {
    }
    assert all[|log|] == p;
    hide RecordFits, Bare;
  }

  lemma PendingForFacts(r: RecorderState, s: Submission)
    requires Admits(r, s) && SubmissionFits(s)
    ensures
      var p := PendingFor(r, s);
      && Bare(p) == p && RecordFits(p) && PendingOrder(p) == r.ingressOrder + 1
      && p.PendingSnapshot? == s.SubmitGsi?
      && match p
         case PendingSnapshot(g, _) => g.sequence == r.sequence + 1
         case PendingSupplementary(e) => e.snapshot.sequence == r.supplementarySequence + 1
  {
  }

  lemma SubmitKeepsAccepted(y: System, s: Submission)
    requires AcceptedOk(y)
    ensures AcceptedOk(Submitted(y, s))
  {
    if y.gate.None? && SubmissionFits(s) && Admits(y.recorder, s) {
      var p := PendingFor(y.recorder, s);
      PendingForFacts(y.recorder, s);
      NumberedMore(y.accepted, p);
      SnapshotsMore(y.accepted, p);
      BareMore(y.accepted, p);
      hide Numbered, AllFit, BareAll, Bare, RecordFits, SubmissionFits, Admits, Snapshots, PendingFor;
    }
  }

  lemma SubmitKeepsOrder(y: System, s: Submission)
    requires NothingLost(y) && RecorderStops(y)
    ensures NothingLost(Submitted(y, s)) && RecorderStops(Submitted(y, s))
  {
  }

  lemma SubmitKeepsRecorder(y: System, s: Submission)
    requires RecorderInv(y)
    ensures RecorderInv(Submitted(y, s))
  {
    SubmitKeepsAccepted(y, s);
    SubmitKeepsOrder(y, s);
    if y.gate.None? && SubmissionFits(s) && Admits(y.recorder, s) {
      FilesFrame(y, Submitted(y, s));
      RawFrame(y, Submitted(y, s));
    }
    hide AcceptedOk, FilesOk, RawOk, NothingLost, RecorderStops, SubmissionFits, Admits, PendingFor, LiveItemOf;
  }

  // Parts of the invariant that an action does not touch.

  lemma AcceptedFrame(y: System, y': System)
    requires AcceptedOk(y) && y'.accepted == y.accepted
    requires y'.recorder.ingressOrder == y.recorder.ingressOrder && y'.recorder.sequence == y.recorder.sequence
    requires y'.recorder.supplementarySequence == y.recorder.supplementarySequence
    ensures AcceptedOk(y')
  {
  }

  lemma RawFrame(y: System, y': System)
    requires RawOk(y) && y'.stored == y.stored && y'.stage == y.stage
    requires y'.recorder.raw == y.recorder.raw && y'.recorder.rawOffset == y.recorder.rawOffset
    requires y'.recorder.failed == y.recorder.failed
    ensures RawOk(y')
  {
  }

  lemma SplitAt(described: string, raw: string)
    requires described <= raw
    ensures raw == described + raw[|described|..]
    ensures raw[|described|..] == "" ==> raw == described
  {
  }

  lemma FilesFrame(y: System, y': System)
    requires FilesOk(y) && y'.stored == y.stored && y'.recorder.timeline == y.recorder.timeline
    requires y'.recorder.failed || (!y.recorder.failed && y'.recorder.supplementary == y.recorder.supplementary)
    ensures FilesOk(y')
  {
    hide Tiled, AllFit, FileText, TimelineRows, SupplementaryRows, TIMELINE_HEADER, SUPPLEMENTARY_HEADER;
  }

  // ----- The recorder's worker -----

  lemma TakeKeepsOrder(y: System)
    requires AcceptedOk(y) && NothingLost(y) && RecorderStops(y)
    ensures NothingLost(RecordTaken(y))
  {
  }

  lemma TakeKeepsRecorder(y: System)
    requires RecorderInv(y)
    ensures RecorderInv(RecordTaken(y))
  {
    TakeKeepsOrder(y);
    hide NothingLost, AcceptedOk, FilesOk, RawOf;
    if y.stage.Between? && !y.recorderDone && y.recorder.queue != [] {
      AcceptedFrame(y, RecordTaken(y));
      FilesFrame(y, RecordTaken(y));
    }
  }

  lemma BodyKeepsRaw(y: System)
    requires RawOk(y) && RecorderStops(y) && !y.recorderDone
    ensures RawOk(BodyAppended(y))
  {
  }

  lemma BodyKeepsRecorder(y: System)
    requires RecorderInv(y) && !y.recorderDone
    ensures RecorderInv(BodyAppended(y))
  {
    BodyKeepsRaw(y);
    hide RawOk, AcceptedOk, FilesOk, BareAll;
    if y.stage.Taken? && y.stage.p.PendingSnapshot? {
      AcceptedFrame(y, BodyAppended(y));
      FilesFrame(y, BodyAppended(y));
      assert Bare(WithOffset(y.recorder, y.stage.p)) == Bare(y.stage.p);
    }
  }

  lemma RowsMore(log: seq<Pending>, p: Pending)
    ensures TimelineRows(log + [p]) == TimelineRows(log) + (if p.PendingSnapshot? then [TimelineRow(p.gsi)] else [])
    ensures SupplementaryRows(log + [p]) ==
      SupplementaryRows(log) + (if p.PendingSupplementary? then [SupplementaryRow(p.supplement)] else [])
    ensures RawOf(log + [p]) == RawOf(log) + (if p.PendingSnapshot? then p.body else "")
  {
  }

  lemma FileTextMore(header: string, rows: seq<string>, row: string)
    ensures FileText(header, rows + [row]) == FileText(header, rows) + (row + ['\n'])
  {
    RowsTextAppends([header] + rows, row);
    assert [header] + rows + [row] == [header] + (rows + [row]);
  }

  lemma TiledMore(log: seq<Pending>, p: Pending)
    requires Tiled(log) && (p.PendingSnapshot? ==> p.gsi.bodyOffset == |RawOf(log)|)
    ensures Tiled(log + [p])
  {
    var all := log + [p];
    assert all[..|log|] == log;
    forall k | 0 <= k < |log| ensures all[..k] == log[..k] && all[k] == log[k] {
    }
    hide RawOf;
  }

  lemma TickFacts(p: Pending, tick: nat)
    ensures
      var q := WithTick(p, tick);
      && Bare(q) == Bare(p) && q.PendingSnapshot? == p.PendingSnapshot?
      && (p.PendingSnapshot? ==> q.body == p.body && q.gsi.bodyOffset == p.gsi.bodyOffset)
    ensures (if p.PendingSnapshot? then WithTick(p, tick).gsi.persistCompleteTick
             else WithTick(p, tick).supplement.persistCompleteTick) == tick
    ensures tick < U64 && RecordFits(Bare(p)) ==> RecordFits(WithTick(p, tick))
  {
  }

  lemma InHandFits(y: System)
    requires AcceptedOk(y) && NothingLost(y) && !y.stage.Between?
    ensures RecordFits(Bare(y.stage.p))
  {
    var n := |y.stored|;
    assert |BareAll(y.stored)| == n;
    assert (BareAll(y.stored) + InHand(y.stage))[n] == Bare(y.stage.p);
    assert y.accepted[n] == Bare(y.stage.p);
    hide RecordFits, Bare, BareAll;
  }

  lemma RowKeepsFiles(y: System, tick: nat)
    requires RecorderInv(y) && !y.recorderDone
    ensures FilesOk(RowAppended(y, tick))
  {
    if !y.stage.Between? && tick < U64 && !(y.stage.Taken? && y.stage.p.PendingSnapshot?) {
      var p := WithTick(y.stage.p, tick);
      TickFacts(y.stage.p, tick);
      InHandFits(y);
      BareMore(y.stored, p);
      RowsMore(y.stored, p);
      TiledMore(y.stored, p);
      if p.PendingSnapshot? {
        FileTextMore(TIMELINE_HEADER, TimelineRows(y.stored), TimelineRow(p.gsi));
        assert SupplementaryRows(y.stored) + [] == SupplementaryRows(y.stored);
      } else {
        FileTextMore(SUPPLEMENTARY_HEADER, SupplementaryRows(y.stored), SupplementaryRow(p.supplement));
        assert TimelineRows(y.stored) + [] == TimelineRows(y.stored);
      }
    }
    hide AcceptedOk, AllFit, Tiled, BareAll, TimelineRows, SupplementaryRows, RawOf, FileText, Bare, RecordFits, WithTick,
         TimelineRow, SupplementaryRow, TIMELINE_HEADER, SUPPLEMENTARY_HEADER;
  }

  lemma RowKeepsRaw(y: System, tick: nat)
    requires RawOk(y) && RecorderStops(y) && !y.recorderDone
    ensures RawOk(RowAppended(y, tick))
  {
  }

  lemma RowRaw(y: System, tick: nat)
    ensures RowAppended(y, tick).recorder.raw == y.recorder.raw && RowAppended(y, tick).recorder.failed == y.recorder.failed
    ensures RowAppended(y, tick).recorder.rawOffset == y.recorder.rawOffset
    ensures
      var r := RowAppended(y, tick).recorder;
      && r.ingressOrder == y.recorder.ingressOrder && r.sequence == y.recorder.sequence
      && r.supplementarySequence == y.recorder.supplementarySequence
  {
    hide WithTick, TimelineRow, SupplementaryRow;
  }

  lemma RowKeepsOrder(y: System, tick: nat)
    requires NothingLost(y) && RecorderStops(y) && !y.recorderDone
    ensures NothingLost(RowAppended(y, tick))
  {
    if !y.stage.Between? && tick < U64 && !(y.stage.Taken? && y.stage.p.PendingSnapshot?) {
      var p := WithTick(y.stage.p, tick);
      TickFacts(y.stage.p, tick);
      BareMore(y.stored, p);
      assert BareAll(y.stored) + [Bare(p)] + [] == BareAll(y.stored) + [Bare(p)];
    }
    hide BareAll, Bare, WithTick, TimelineRow, SupplementaryRow;
  }

  lemma RowKeepsRecorder(y: System, tick: nat)
    requires RecorderInv(y) && !y.recorderDone
    ensures RecorderInv(RowAppended(y, tick))
  {
    RowKeepsFiles(y, tick);
    RowKeepsRaw(y, tick);
    RowKeepsOrder(y, tick);
    RowRaw(y, tick);
    AcceptedFrame(y, RowAppended(y, tick));
    hide RawOk, NothingLost, AcceptedOk, FilesOk, WithTick, RowWritten;
  }

  lemma FailKeepsRaw(y: System, bytes: nat)
    requires RawOk(y) && RecorderStops(y)
    ensures RawOk(RecorderFailed(y, bytes))
  {
  }

  lemma FailKeepsOrder(y: System, bytes: nat)
    requires NothingLost(y) && RecorderStops(y)
    ensures NothingLost(RecorderFailed(y, bytes)) && RecorderStops(RecorderFailed(y, bytes))
  {
  }

  lemma PartlyFrame(r: RecorderState, stage: Stage, bytes: nat)
    ensures
      var q := PartlyWritten(r, stage, bytes);
      && q.queue == r.queue && q.failed == r.failed && q.stopping == r.stopping && q.timeline == r.timeline
      && q.ingressOrder == r.ingressOrder && q.sequence == r.sequence
      && q.supplementarySequence == r.supplementarySequence
  {
  }

  lemma FailKeepsRecorder(y: System, bytes: nat)
    requires RecorderInv(y)
    ensures RecorderInv(RecorderFailed(y, bytes))
  {
    FailKeepsRaw(y, bytes);
    FailKeepsOrder(y, bytes);
    PartlyFrame(y.recorder, y.stage, bytes);
    hide RawOk, AcceptedOk, FilesOk, NothingLost, RecorderStops, PartlyWritten;
    if !y.stage.Between? && !y.recorderDone {
      AcceptedFrame(y, RecorderFailed(y, bytes));
      FilesFrame(y, RecorderFailed(y, bytes));
    }
  }

  lemma StopKeepsRecorder(y: System)
    requires RecorderInv(y)
    ensures RecorderInv(y.(recorder := y.recorder.(stopping := true)))
  {
    var stopped := y.(recorder := y.recorder.(stopping := true));
    AcceptedFrame(y, stopped);
    FilesFrame(y, stopped);
    RawFrame(y, stopped);
    hide AcceptedOk, FilesOk, RawOk, BareAll, InHand;
  }

  lemma ExitKeepsRecorder(y: System)
    requires RecorderInv(y)
    ensures RecorderInv(RecorderExited(y))
  {
    var exited := RecorderExited(y);
    AcceptedFrame(y, exited);
    FilesFrame(y, exited);
    RawFrame(y, exited);
    hide AcceptedOk, FilesOk, RawOk, BareAll, InHand;
  }

  /** The recorder's invariant speaks of the recorder's part only. */
  lemma RecorderFrame(y: System, y': System)
    requires RecorderInv(y)
    requires y'.recorder == y.recorder && y'.stage == y.stage && y'.recorderDone == y.recorderDone
    requires y'.accepted == y.accepted && y'.stored == y.stored
    ensures RecorderInv(y')
  {
    hide AllFit, Tiled, BareAll, TimelineRows, SupplementaryRows, RawOf, FileText, Bare, RecordFits, Numbered, Snapshots;
  }

  lemma NextKeepsRecorder(y: System, a: Action)
    requires RecorderInv(y)
    ensures RecorderInv(Next(y, a))
  {
    hide RecorderInv, Submitted, RecordTaken, BodyAppended, RowAppended, RecorderFailed, RecorderExited;
    match a
    case Submit(s) => SubmitKeepsRecorder(y, s);
    case TakeRecord => TakeKeepsRecorder(y);
    case WriteBody => if !y.recorderDone { BodyKeepsRecorder(y); }
    case WriteRow(tick) => if !y.recorderDone { RowKeepsRecorder(y, tick); }
    case FailRecorder(bytes) => FailKeepsRecorder(y, bytes);
    case ExitRecorder => ExitKeepsRecorder(y);
    case StopRecorder => StopKeepsRecorder(y);
    case _ => RecorderFrame(y, Next(y, a));
  }

  // ----- The live pipeline -----

  lemma SelectedMore(log: seq<Pending>, p: Pending, indices: seq<nat>)
    requires Selects(indices, |log|)
    ensures Selects(indices, |log| + 1) && Selected(log + [p], indices) == Selected(log, indices)
    ensures Selects(indices + [|log|], |log| + 1) && Selected(log + [p], indices + [|log|]) == Selected(log, indices) + [LiveItemOf(p)]
  {
  }

  lemma SubmitKeepsLive(y: System, s: Submission)
    requires LiveInv(y)
    ensures LiveInv(Submitted(y, s))
  {
    if y.gate.None? && SubmissionFits(s) && Admits(y.recorder, s) {
      SelectedMore(y.accepted, PendingFor(y.recorder, s), y.delivered);
    }
    hide Selected, HandleAll, SubmissionFits, Admits, PendingFor, LiveItemOf;
  }

  lemma DeliverKeepsLive(y: System)
    requires LiveInv(y)
    ensures LiveInv(Delivered(y))
  {
    hide HandleAll, LiveItemOf, Selected;
    if y.gate.Some? && y.accepted != [] && !y.liveStopping && !y.liveFailed {
      var n := |y.accepted| - 1;
      var log, p := y.accepted[..n], y.accepted[n];
      assert y.accepted == log + [p];
      assert Selects(y.delivered, n);
      SelectedMore(log, p, y.delivered);
      var items := y.processed + Held(y.liveTaken);
      assert items + (y.liveQueue + [y.gate.value]) == items + y.liveQueue + [y.gate.value];
    }
  }

  lemma WorkerKeepsLive(y: System)
    requires LiveInv(y)
    ensures LiveInv(LiveTaken(y)) && LiveInv(LiveHandled(y))
  {
    hide Handle, LiveItemOf, Selected, Selects;
    if y.liveTaken.None? && y.liveQueue != [] {
      var item, rest := y.liveQueue[0], y.liveQueue[1..];
      assert y.processed + [] + y.liveQueue == y.processed + [item] + rest;
    }
    if y.liveTaken.Some? {
      var item := y.liveTaken.value;
      assert (y.processed + [item])[..|y.processed|] == y.processed;
      assert y.processed + [item] + [] == y.processed + [item];
    }
  }

  lemma StopsKeepLive(y: System)
    requires LiveInv(y)
    ensures LiveInv(LiveBroken(y)) && LiveInv(LiveExited(y)) && LiveInv(y.(liveStopping := true))
  {
    hide HandleAll, LiveItemOf, Selected, Selects;
  }

  lemma LiveFrame(y: System, y': System)
    requires LiveInv(y) && y'.accepted == y.accepted && y'.delivered == y.delivered && y'.processed == y.processed
    requires y'.gate == y.gate && y'.liveQueue == y.liveQueue && y'.liveTaken == y.liveTaken && y'.live == y.live
    requires y'.liveStopping == y.liveStopping && y'.liveFailed == y.liveFailed && y'.liveDone == y.liveDone
    ensures LiveInv(y')
  {
    hide HandleAll, LiveItemOf, Selected, Selects;
  }

  lemma NextKeepsLive(y: System, a: Action)
    requires LiveInv(y)
    ensures LiveInv(Next(y, a))
  {
    hide LiveInv, Submitted, Delivered, LiveTaken, LiveHandled, LiveBroken, LiveExited, RowWritten, PartlyWritten,
         WithOffset, RawWritten, WithTick;
    match a
    case Submit(s) => SubmitKeepsLive(y, s);
    case Deliver => DeliverKeepsLive(y);
    case TakeLive => WorkerKeepsLive(y);
    case HandleLive => WorkerKeepsLive(y);
    case FailLive => StopsKeepLive(y);
    case ExitLive => StopsKeepLive(y);
    case StopLive => StopsKeepLive(y);
    case _ => LiveFrame(y, Next(y, a));
  }

  // ----- Every run -----

  lemma StartFiles(startTick: nat)
    ensures FilesOk(Start(startTick))
  {
    OneLine(TIMELINE_HEADER);
    OneLine(SUPPLEMENTARY_HEADER);
    hide FileText, TIMELINE_HEADER, SUPPLEMENTARY_HEADER, RecordFits, FRESH_WORKER;
  }

  lemma StartInv(startTick: nat)
    ensures RecorderInv(Start(startTick)) && LiveInv(Start(startTick))
  {
    StartFiles(startTick);
    StartLive(startTick);
    var y := Start(startTick);
    assert AcceptedOk(y) by { hide FilesOk, LiveInv, FRESH_WORKER, TIMELINE_HEADER, SUPPLEMENTARY_HEADER, RecordFits, Bare; }
    hide FilesOk, LiveInv, FRESH_WORKER, TIMELINE_HEADER, SUPPLEMENTARY_HEADER, AcceptedOk;
  }

  lemma StartLive(startTick: nat)
    ensures LiveInv(Start(startTick))
  {
    hide FRESH_WORKER, Opened;
    assert HandleAll([]) == FRESH_WORKER;
    hide HandleAll;
  }

  lemma OneLine(header: string)
    ensures FileText(header, []) == header + ['\n']
  {
    var rows := [header];
    assert [header] + [] == rows && rows[1..] == [];
    assert RowsText(rows) == header + (['\n'] + RowsText([]));
    assert ['\n'] + RowsText([]) == ['\n'];
  }

  /** Both invariants hold after every sequence of actions. */
  lemma {:induction false} AlwaysInv(startTick: nat, actions: seq<Action>)
    ensures RecorderInv(Run(startTick, actions)) && LiveInv(Run(startTick, actions))
  {
    hide Next, Start, RecorderInv, LiveInv;
    if actions == [] {
      StartInv(startTick);
    } else {
      var init := actions[..|actions| - 1];
      AlwaysInv(startTick, init);
      NextKeepsRecorder(Run(startTick, init), actions[|actions| - 1]);
      NextKeepsLive(Run(startTick, init), actions[|actions| - 1]);
    }
  }
}
