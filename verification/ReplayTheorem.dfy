/** Replay equals live, and what a stop or a failure leaves behind. */
module ReplayTheorem {
  import opened Telemetry
  import opened SessionText
  import opened SemanticResolution
  import opened GameStates
  import opened SessionFiles
  import opened Storage
  import opened Spine
  import opened SourceBlind
  import opened LivePipeline
  import opened Interleaving
  import opened QueueTheorems
  import opened Analysis

  /** The session directory as it is at this moment. */
  function SessionOf(y: System): Session {
    Session(Some(y.recorder.timeline), Some(y.recorder.supplementary), Some(y.recorder.raw), map[])
  }

  /** Counters and offsets have not wrapped: fewer than 2^64 records and raw bytes. */
  predicate Unwrapped(y: System) { |y.accepted| < U64 && |y.recorder.raw| < U64 }

  // ----- Stored records are a prefix of the accepted ones -----

  lemma StoredPrefix(y: System)
    requires NothingLost(y)
    ensures |y.stored| <= |y.accepted|
    ensures forall k :: 0 <= k < |y.stored| ==> Bare(y.stored[k]) == y.accepted[k]
  {
  }

  lemma BareFacts(p: Pending)
    ensures PendingOrder(Bare(p)) == PendingOrder(p) && LiveItemOf(Bare(p)) == LiveItemOf(p)
    ensures p.PendingSnapshot? ==> Bare(p).PendingSnapshot? && Bare(p).gsi.sequence == p.gsi.sequence
    ensures p.PendingSupplementary? ==>
      Bare(p).PendingSupplementary? && Bare(p).supplement.snapshot == p.supplement.snapshot
  {
  }

  /** The widths that the counters and the offset add to those of the inputs. */
  lemma WithinWidth(p: Pending, accepted: nat, raw: nat)
    requires RecordFits(p) && PendingOrder(p) <= accepted < U64 && raw < U64
    requires p.PendingSnapshot? ==> p.gsi.sequence <= accepted && p.gsi.bodyOffset + |p.body| <= raw
    requires p.PendingSupplementary? ==> p.supplement.snapshot.sequence <= accepted
    ensures Fits(p)
  {
  }

  lemma StoredNumber(y: System, k: nat)
    requires AcceptedOk(y) && NothingLost(y) && k < |y.stored|
    ensures
      var p := y.stored[k];
      && k < |y.accepted| && PendingOrder(p) == k + 1
      && (p.PendingSnapshot? ==> p.gsi.sequence <= k + 1)
      && (p.PendingSupplementary? ==> p.supplement.snapshot.sequence <= k + 1)
  {
    StoredPrefix(y);
    BareFacts(y.stored[k]);
    hide NothingLost, BareAll, Bare, AllFit, PendingOrder, Snapshots;
    assert NumberedAt(y.accepted, k);
    SnapshotsBound(y.accepted[..k]);
  }

  lemma StoredOffset(y: System, k: nat)
    requires RawOk(y) && FilesOk(y) && k < |y.stored| && y.stored[k].PendingSnapshot?
    ensures y.stored[k].gsi.bodyOffset + |y.stored[k].body| <= |y.recorder.raw|
  {
    hide AllFit, TimelineRows, SupplementaryRows, FileText, RawOf, TIMELINE_HEADER, SUPPLEMENTARY_HEADER;
    RawPrefix(y.stored, k);
  }

  lemma StoredFits(y: System, k: nat)
    requires RecorderInv(y) && Unwrapped(y) && k < |y.stored|
    ensures Fits(y.stored[k]) && PendingOrder(y.stored[k]) == k + 1
  {
    hide AcceptedOk, NothingLost, RawOk, Tiled, TimelineRows, SupplementaryRows, FileText, RecordFits, Fits, PendingOrder,
         TIMELINE_HEADER, SUPPLEMENTARY_HEADER;
    var p := y.stored[k];
    assert RecordFits(p);
    StoredNumber(y, k);
    if p.PendingSnapshot? {
      StoredOffset(y, k);
    }
    WithinWidth(p, |y.accepted|, |y.recorder.raw|);
  }

  lemma StoredWellFormed(y: System)
    requires RecorderInv(y) && Unwrapped(y)
    ensures WellFormedLog(y.stored)
  {
    forall k | 0 <= k < |y.stored| ensures Fits(y.stored[k]) && PendingOrder(y.stored[k]) == k + 1 {
      StoredFits(y, k);
    }
    hide AcceptedOk, NothingLost, AllFit, RawOk, Fits, PendingOrder, RawOf, TimelineRows, SupplementaryRows, FileText;
  }

  lemma SessionIsLog(y: System)
    requires RecorderInv(y) && !y.recorder.failed
    ensures |RawOf(y.stored)| <= |y.recorder.raw|
    ensures SessionOf(y) == FilesOf(y.stored, y.recorder.raw[|RawOf(y.stored)|..])
  {
    SplitAt(RawOf(y.stored), y.recorder.raw);
    hide AcceptedOk, NothingLost, AllFit, Tiled, RawOf, TimelineRows, SupplementaryRows, FileText,
         TIMELINE_HEADER, SUPPLEMENTARY_HEADER;
  }

  /** The timeline loads, describes exactly the snapshots of a log, and every body it names loads. */
  predicate RowsLoad(session: Session, log: seq<Pending>) {
    && LoadTimeline(session) == Some(GsiEntries(log))
    && forall k :: 0 <= k < |log| && log[k].PendingSnapshot? ==>
         LoadReplayBody(session, ReplayEntry(log[k].gsi, true)) == Some(log[k].body)
  }

  lemma LogRowsLoad(session: Session, log: seq<Pending>, extra: string)
    requires WellFormedLog(log)
    requires session.timeline == FilesOf(log, extra).timeline && session.raw == FilesOf(log, extra).raw
    ensures RowsLoad(session, log)
  {
    var files := FilesOf(log, extra);
    assert files.raw == Some(RawOf(log) + extra);
    hide WellFormedLog, FilesOf, GsiEntries, LoadTimeline, LoadReplayBody, RawOf;
    TimelineLoads(log, extra);
    SameTimeline(session, files);
    forall k | 0 <= k < |log| && log[k].PendingSnapshot?
      ensures LoadReplayBody(session, ReplayEntry(log[k].gsi, true)) == Some(log[k].body)
    {
      BodyLoads(log, session, extra, k);
    }
  }

  lemma SameTimeline(a: Session, b: Session)
    requires a.timeline == b.timeline
    ensures LoadTimeline(a) == LoadTimeline(b)
  {
  }

  lemma TimelineIsLog(y: System)
    requires RecorderInv(y)
    ensures |RawOf(y.stored)| <= |y.recorder.raw|
    ensures
      var files := FilesOf(y.stored, y.recorder.raw[|RawOf(y.stored)|..]);
      SessionOf(y).timeline == files.timeline && SessionOf(y).raw == files.raw
  {
    SplitAt(RawOf(y.stored), y.recorder.raw);
    hide AcceptedOk, NothingLost, AllFit, Tiled, RawOf, TimelineRows, SupplementaryRows, FileText,
         TIMELINE_HEADER, SUPPLEMENTARY_HEADER;
  }

  /** At every moment of every run, even after a failure or between the two writes of a record,
      rows tile bytes that are already written: everything the timeline names loads. */
  lemma RowsAlwaysLoad(startTick: nat, actions: seq<Action>)
    requires Unwrapped(Run(startTick, actions))
    ensures RowsLoad(SessionOf(Run(startTick, actions)), Run(startTick, actions).stored)
  {
    hide RecorderInv, LiveInv, Run, WellFormedLog, RawOf, FilesOf, SessionOf, RowsLoad, Unwrapped;
    var y := Run(startTick, actions);
    AlwaysInv(startTick, actions);
    StoredWellFormed(y);
    TimelineIsLog(y);
    LogRowsLoad(SessionOf(y), y.stored, y.recorder.raw[|RawOf(y.stored)|..]);
  }

  // ----- What replay observes -----

  function ReplaySide(p: Pending): Observation {
    match p
    case PendingSnapshot(r, body) => Reported(NormalizeGsi(body, r.sequence, r.relativeUs))
    case PendingSupplementary(r) => Counted(BlurSnapshot(r.snapshot))
  }

  function ReplaySides(log: seq<Pending>): (r: seq<Observation>)
    ensures |r| == |log| && forall k :: 0 <= k < |r| ==> r[k] == ReplaySide(log[k])
  {
    seq(|log|, k requires 0 <= k < |log| => ReplaySide(log[k]))
  }

  function LiveSides(log: seq<Pending>): (r: seq<Observation>)
    ensures |r| == |log| && forall k :: 0 <= k < |r| ==> r[k] == ObservationOf(LiveItemOf(log[k]))
  {
    seq(|log|, k requires 0 <= k < |log| => ObservationOf(LiveItemOf(log[k])))
  }

  lemma SidesBlurAlike(p: Pending)
    ensures BlurObservation(ReplaySide(p)) == BlurObservation(ObservationOf(LiveItemOf(p)))
  {
  }

  lemma {:induction false} ItemsReplay(log: seq<Pending>, extra: string, n: nat)
    requires WellFormedLog(log) && n <= |log|
    ensures ReplayObservations(FilesOf(log, extra), ItemsOf(log)[..n]) == Some(ReplaySides(log)[..n])
  {
    hide WellFormedLog, FilesOf, NormalizeGsi, LoadReplayBody;
    if n > 0 {
      var items, sides := ItemsOf(log), ReplaySides(log);
      ItemsReplay(log, extra, n - 1);
      assert items[..n][..n - 1] == items[..n - 1] && sides[..n] == sides[..n - 1] + [sides[n - 1]];
      if log[n - 1].PendingSnapshot? {
        FileBody(log, extra, n - 1);
      }
    }
  }

  lemma LogReplays(log: seq<Pending>, extra: string)
    requires WellFormedLog(log)
    ensures Replayed(FilesOf(log, extra)) == Some(ReplaySides(log))
  {
    hide WellFormedLog, FilesOf, LoadReplayStream, ReplayObservations;
    StorageRoundTrip(log, extra);
    ItemsReplay(log, extra, |log|);
    assert ItemsOf(log)[..|log|] == ItemsOf(log);
    assert ReplaySides(log)[..|log|] == ReplaySides(log);
  }

  /** Analysing the files of a run, at any moment without a recorder failure, observes what was stored. */
  lemma StoredReplays(y: System)
    requires RecorderInv(y) && Unwrapped(y) && !y.recorder.failed
    ensures Replayed(SessionOf(y)) == Some(ReplaySides(y.stored))
  {
    hide RecorderInv, SessionOf, WellFormedLog, FilesOf, RawOf, Replayed, ReplaySides, Unwrapped;
    StoredWellFormed(y);
    SessionIsLog(y);
    LogReplays(y.stored, y.recorder.raw[|RawOf(y.stored)|..]);
  }

  // ----- Both sides see prefixes of one trace -----

  lemma {:induction false} SameVisible(cfg: Config, a: seq<Observation>, b: seq<Observation>, n: nat)
    requires n <= |a| == |b|
    requires forall k :: 0 <= k < |a| ==> BlurObservation(a[k]) == BlurObservation(b[k])
    ensures Visible(cfg, a, n) == Visible(cfg, b, n)
  {
    hide BlurObservation, BatchAt, StateAt, SameButSource;
    if n > 0 {
      SameVisible(cfg, a, b, n - 1);
      SourcesNeverMatter(cfg, a, b, n - 1);
    }
  }

  predicate StoredFrom(stored: seq<Pending>, accepted: seq<Pending>) {
    |stored| <= |accepted| && forall k :: 0 <= k < |stored| ==> Bare(stored[k]) == accepted[k]
  }

  lemma StoredVisible(stored: seq<Pending>, accepted: seq<Pending>)
    requires StoredFrom(stored, accepted)
    ensures Visible(DEFAULT_CONFIG, ReplaySides(stored), |stored|) == Visible(DEFAULT_CONFIG, LiveSides(accepted), |stored|)
  {
    hide ReplaySide, ObservationOf, LiveItemOf, Bare, BlurObservation, Visible;
    var n := |stored|;
    var a, all := ReplaySides(stored), LiveSides(accepted);
    forall k | 0 <= k < n ensures BlurObservation(a[k]) == BlurObservation(all[..n][k]) {
      SidesBlurAlike(stored[k]);
      BareFacts(stored[k]);
    }
    SameVisible(DEFAULT_CONFIG, a, all[..n], n);
    VisibleIn(all, n);
  }

  /** What analysis prints is what the live worker would emit for the stored records. */
  lemma ReplayIsPrefix(y: System)
    requires RecorderInv(y) && Unwrapped(y) && !y.recorder.failed
    ensures Replayed(SessionOf(y)).Some? && |Replayed(SessionOf(y)).value| == |y.stored| <= |y.accepted|
    ensures Visible(DEFAULT_CONFIG, Replayed(SessionOf(y)).value, |y.stored|) ==
      Visible(DEFAULT_CONFIG, LiveSides(y.accepted), |y.stored|)
  {
    hide AcceptedOk, RawOk, FilesOk, RecorderStops, NothingLost, SessionOf, Bare, Replayed, Visible, Unwrapped, LiveSides;
    StoredReplays(y);
    StoredPrefix(y);
    StoredVisible(y.stored, y.accepted);
  }

  lemma {:induction false} AllSelected(indices: seq<nat>, n: nat, k: nat)
    requires Selects(indices, n) && |indices| == n && k < n
    ensures indices[k] >= k
  {
    if k > 0 {
      AllSelected(indices, n, k - 1);
    }
  }

  lemma {:induction false} SelectedAtMost(indices: seq<nat>, n: nat, k: nat)
    requires Selects(indices, n) && |indices| == n && k < n
    ensures indices[k] <= k
    decreases n - k
  {
    if k < n - 1 {
      SelectedAtMost(indices, n, k + 1);
    }
  }

  lemma EverythingSelected(log: seq<Pending>, indices: seq<nat>)
    requires Selects(indices, |log|) && |indices| == |log|
    ensures ObservationsOf(Selected(log, indices)) == LiveSides(log)
  {
    hide LiveItemOf, ObservationOf, Selects;
    forall k | 0 <= k < |log| ensures indices[k] == k {
      AllSelected(indices, |log|, k);
      SelectedAtMost(indices, |log|, k);
    }
  }

  lemma ProcessedPrefix(y: System)
    requires LiveOk(y) && |y.delivered| == |y.accepted|
    ensures |y.processed| <= |y.accepted|
    ensures ObservationsOf(y.processed) == LiveSides(y.accepted)[..|y.processed|]
  {
    hide LiveItemOf, ObservationOf, HandleAll, Selects;
    EverythingSelected(y.accepted, y.delivered);
    var items := Selected(y.accepted, y.delivered);
    var rest := Held(y.liveTaken) + y.liveQueue;
    assert items == y.processed + rest;
    assert y.processed == items[..|y.processed|];
  }

  /** What the live worker has emitted, as long as the gate lost nothing. */
  lemma LiveIsPrefix(y: System)
    requires LiveOk(y) && |y.delivered| == |y.accepted|
    ensures |y.processed| <= |y.accepted|
    ensures EventsOf(y.live.batches) == Visible(DEFAULT_CONFIG, LiveSides(y.accepted), |y.processed|)
  {
    ProcessedPrefix(y);
    assert y.live == HandleAll(y.processed);
    hide LiveOk, LiveSides, HandleAll, Visible, EventsOf, ObservationsOf;
    ProcessedEvents(y.processed, LiveSides(y.accepted));
  }

  /** Handling some items emits what their observations show in any longer run. */
  lemma ProcessedEvents(items: seq<LiveItem>, all: seq<Observation>)
    requires |items| <= |all| && ObservationsOf(items) == all[..|items|]
    ensures EventsOf(HandleAll(items).batches) == Visible(DEFAULT_CONFIG, all, |items|)
  {
    hide HandleAll, Visible, EventsOf, ObservationsOf, Witnessed, StateAt;
    WorkerRunsSpine(items);
    assert |ObservationsOf(items)| == |items|;
    VisibleIn(all, |items|);
  }

  lemma VisibleIn(all: seq<Observation>, n: nat)
    requires n <= |all|
    ensures Visible(DEFAULT_CONFIG, all[..n], n) == Visible(DEFAULT_CONFIG, all, n)
  {
    hide Visible;
    VisiblePrefix(DEFAULT_CONFIG, all[..n], all[n..], n);
    assert all[..n] + all[n..] == all;
  }

  // ----- The theorems -----

  /** Queues: after every sequence of actions, persisted, in-hand and queued records are exactly
      the accepted ones in order, numbered 1 to n across both sources, and the live pipeline
      holds the records it took in that same order. */
  lemma QueuesKeepEverything(startTick: nat, actions: seq<Action>)
    ensures
      var y := Run(startTick, actions);
      && (!y.recorder.failed ==> BareAll(y.stored) + InHand(y.stage) + y.recorder.queue == y.accepted)
      && Numbered(y.accepted)
      && y.recorder.ingressOrder == y.recorder.sequence + y.recorder.supplementarySequence == |y.accepted|
      && Selects(y.delivered, |y.accepted|)
      && y.processed + Held(y.liveTaken) + y.liveQueue == Selected(y.accepted, y.delivered)
  {
    hide Run, BareAll, Snapshots, AllFit, RawOk, FilesOk, Selected, HandleAll, GateOk, Bare;
    AlwaysInv(startTick, actions);
  }

  /** A clean stop has processed everything: all accepted records are on disk, and all
      delivered ones went through the live worker. */
  lemma CleanStopFinishes(startTick: nat, actions: seq<Action>)
    ensures
      var y := Run(startTick, actions);
      && (y.recorderDone && !y.recorder.failed ==> BareAll(y.stored) == y.accepted)
      && Selects(y.delivered, |y.accepted|)
      && (y.liveDone && !y.liveFailed ==> y.processed == Selected(y.accepted, y.delivered))
  {
    hide Run, BareAll, AcceptedOk, RawOk, FilesOk, Selected, HandleAll, GateOk, Bare, Selects;
    AlwaysInv(startTick, actions);
    var y := Run(startTick, actions);
    assert BareAll(y.stored) + [] + [] == BareAll(y.stored);
    assert y.processed + [] + [] == y.processed;
  }

  /** While the live pipeline is not stopping, the gate has lost nothing. */
  lemma GateLosesNothing(startTick: nat, actions: seq<Action>)
    ensures
      var y := Run(startTick, actions);
      !y.liveStopping && y.gate.None? ==> |y.delivered| == |y.accepted|
  {
    hide Run, RecorderInv, LiveOk, LiveStops;
    AlwaysInv(startTick, actions);
  }

  /** For every interleaving, at every moment without a recorder failure or a failed live enqueue:
      the batches that analysis of the files prints and those the live worker has handed over
      are prefixes of one sequence of batches. */
  lemma ReplayAndLiveAgree(startTick: nat, actions: seq<Action>)
    requires
      var y := Run(startTick, actions);
      Unwrapped(y) && !y.recorder.failed && |y.delivered| == |y.accepted|
    ensures
      var y := Run(startTick, actions);
      && Replayed(SessionOf(y)).Some? && |Replayed(SessionOf(y)).value| == |y.stored| <= |y.accepted|
      && |y.processed| <= |y.accepted|
      && ReportOf(Replayed(SessionOf(y)).value, |y.stored|).batches ==
           Visible(DEFAULT_CONFIG, LiveSides(y.accepted), |y.stored|)
      && EventsOf(y.live.batches) == Visible(DEFAULT_CONFIG, LiveSides(y.accepted), |y.processed|)
  {
    hide Run, RecorderInv, LiveOk, GateOk, LiveStops, Replayed, Unwrapped, SessionOf, LiveSides, Visible;
    AlwaysInv(startTick, actions);
    ReplayIsPrefix(Run(startTick, actions));
    LiveIsPrefix(Run(startTick, actions));
  }

  /** Replay equals live: once both workers have stopped without an error and no enqueue failed,
      analysing the recorded session reproduces exactly the batches that the live pipeline
      handed to its handler, whatever the interleaving was. */
  lemma ReplayEqualsLive(startTick: nat, actions: seq<Action>)
    requires
      var y := Run(startTick, actions);
      && Unwrapped(y) && |y.delivered| == |y.accepted|
      && y.recorderDone && !y.recorder.failed && y.liveDone && !y.liveFailed
    ensures
      var y := Run(startTick, actions);
      && Replayed(SessionOf(y)).Some?
      && ReportOf(Replayed(SessionOf(y)).value, |Replayed(SessionOf(y)).value|).batches == EventsOf(y.live.batches)
  {
    hide Run, Replayed, SessionOf, LiveSides, Visible, ReportOf, EventsOf;
    ReplayAndLiveAgree(startTick, actions);
    CleanLengths(startTick, actions);
  }

  lemma CleanLengths(startTick: nat, actions: seq<Action>)
    requires
      var y := Run(startTick, actions);
      y.recorderDone && !y.recorder.failed && y.liveDone && !y.liveFailed && |y.delivered| == |y.accepted|
    ensures
      var y := Run(startTick, actions);
      |y.stored| == |y.accepted| == |y.processed|
  {
    hide Run, Bare, LiveItemOf;
    CleanStopFinishes(startTick, actions);
  }
}
