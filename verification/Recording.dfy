/** The session recorder: numbering at acceptance, and one worker that appends to three files. */
module Recording {
  import opened Telemetry
  import opened SupplementaryCounts
  import opened SessionFiles
  import opened Storage

  /** What a producer submits; its `relativeUs` is the session clock's reading of its tick. */
  datatype Submission =
    | SubmitGsi(acceptedTick: nat, bodyCompleteTick: nat, ackSentTick: nat, relativeUs: nat, body: string)
    | SubmitSupplement(snap: Snapshot)

  /** The recorder's fields; the three strings are the contents of its files. */
  datatype RecorderState = RecorderState(
    startTick: nat,
    sequence: nat,
    supplementarySequence: nat,
    ingressOrder: nat,
    rawOffset: nat,
    queue: seq<Pending>,
    stopping: bool,
    failed: bool,
    timeline: string,
    supplementary: string,
    raw: string)

  function Opened(startTick: nat): RecorderState {
    RecorderState(startTick, 0, 0, 0, 0, [], false, false,
                  TIMELINE_HEADER + ['\n'], SUPPLEMENTARY_HEADER + ['\n'], "")
  }

  /** Would the call return a record rather than throw? */
  predicate Admits(r: RecorderState, s: Submission) {
    && !r.failed && !r.stopping
    && (s.SubmitSupplement? ==> ValidTeamCounts(s.snap.teams) && s.snap.observedTick >= r.startTick)
  }

  function PendingFor(r: RecorderState, s: Submission): Pending {
    match s
    case SubmitGsi(accepted, complete, ack, us, body) =>
      PendingSnapshot(SnapshotRecord(r.ingressOrder + 1, r.sequence + 1, accepted, complete, ack, 0, us, 0, |body|, ""), body)
    case SubmitSupplement(snap) =>
      PendingSupplementary(SupplementaryRecord(r.ingressOrder + 1, 0, snap.(sequence := r.supplementarySequence + 1)))
  }

  function Enqueued(r: RecorderState, s: Submission): RecorderState {
    r.(sequence := if s.SubmitGsi? then r.sequence + 1 else r.sequence,
       supplementarySequence := if s.SubmitSupplement? then r.supplementarySequence + 1 else r.supplementarySequence,
       ingressOrder := r.ingressOrder + 1,
       queue := r.queue + [PendingFor(r, s)])
  }

  // ----- Persisting: the body first, then its row -----

  function WithOffset(r: RecorderState, p: Pending): Pending
    requires p.PendingSnapshot?
  {
    p.(gsi := p.gsi.(bodyOffset := r.rawOffset))
  }

  function WithTick(p: Pending, tick: nat): Pending {
    match p
    case PendingSnapshot(g, _) => p.(gsi := g.(persistCompleteTick := tick))
    case PendingSupplementary(s) => p.(supplement := s.(persistCompleteTick := tick))
  }

  function RawWritten(r: RecorderState, p: Pending): RecorderState
    requires p.PendingSnapshot?
  {
    r.(raw := r.raw + p.body, rawOffset := r.rawOffset + |p.body|)
  }

  function RowWritten(r: RecorderState, p: Pending): RecorderState {
    match p
    case PendingSnapshot(g, _) => r.(timeline := r.timeline + (TimelineRow(g) + ['\n']))
    case PendingSupplementary(s) => r.(supplementary := r.supplementary + (SupplementaryRow(s) + ['\n']))
  }

  /** One record completely on disk, and the record as its row describes it. */
  function Persisted(r: RecorderState, p: Pending, tick: nat): (RecorderState, Pending) {
    match p
    case PendingSnapshot(_, _) =>
      var stored := WithTick(WithOffset(r, p), tick);
      (RowWritten(RawWritten(r, p), stored), stored)
    case PendingSupplementary(_) =>
      var stored := WithTick(p, tick);
      (RowWritten(r, stored), stored)
  }

  // ----- The recorder object -----

  class SessionRecorder {
    const startTick: nat
    var sequence: nat
    var supplementarySequence: nat
    var ingressOrder: nat
    var rawOffset: nat
    var queue: seq<Pending>
    var stopping: bool
    var workerError: bool
    var timeline: string
    var supplementary: string
    var raw: string

    ghost function State(): RecorderState
      reads this
    {
      RecorderState(startTick, sequence, supplementarySequence, ingressOrder, rawOffset, queue, stopping, workerError,
                    timeline, supplementary, raw)
    }

    constructor (startTick: nat)
      ensures State() == Opened(startTick)
    {
      this.startTick := startTick;
      sequence, supplementarySequence, ingressOrder, rawOffset := 0, 0, 0, 0;
      queue, stopping, workerError := [], false, false;
      timeline, supplementary, raw := TIMELINE_HEADER + ['\n'], SUPPLEMENTARY_HEADER + ['\n'], "";
    }

    /** None where the source throws. */
    method Enqueue(acceptedTick: nat, bodyCompleteTick: nat, ackSentTick: nat, relativeUs: nat, body: string)
      returns (record: Option<SnapshotRecord>)
      modifies this`sequence, this`ingressOrder, this`queue
      ensures var s := SubmitGsi(acceptedTick, bodyCompleteTick, ackSentTick, relativeUs, body);
        && record == (if Admits(old(State()), s) then Some(PendingFor(old(State()), s).gsi) else None)
        && State() == if Admits(old(State()), s) then Enqueued(old(State()), s) else old(State())
    {
      if workerError || stopping {
        return None;
      }
      sequence := sequence + 1;
      ingressOrder := ingressOrder + 1;
      var r := SnapshotRecord(ingressOrder, sequence, acceptedTick, bodyCompleteTick, ackSentTick, 0, relativeUs, 0,
                              |body|, "");
      queue := queue + [PendingSnapshot(r, body)];
      record := Some(r);
    }

    method EnqueueSupplementary(snapshot: Snapshot) returns (record: Option<SupplementaryRecord>)
      modifies this`supplementarySequence, this`ingressOrder, this`queue
      ensures var s := SubmitSupplement(snapshot);
        && record == (if Admits(old(State()), s) then Some(PendingFor(old(State()), s).supplement) else None)
        && State() == if Admits(old(State()), s) then Enqueued(old(State()), s) else old(State())
    {
      if !ValidTeamCounts(snapshot.teams) || snapshot.observedTick < startTick {
        return None;
      }
      if workerError || stopping {
        return None;
      }
      supplementarySequence := supplementarySequence + 1;
      ingressOrder := ingressOrder + 1;
      var r := SupplementaryRecord(ingressOrder, 0, snapshot.(sequence := supplementarySequence));
      queue := queue + [PendingSupplementary(r)];
      record := Some(r);
    }

    method PersistSnapshot(pending: Pending, tick: nat) returns (ghost stored: Pending)
      requires pending.PendingSnapshot?
      modifies this`raw, this`rawOffset, this`timeline
      ensures (State(), stored) == Persisted(old(State()), pending, tick)
    {
      var record := pending.gsi.(bodyOffset := rawOffset);
      raw := raw + pending.body;
      rawOffset := rawOffset + |pending.body|;
      record := record.(persistCompleteTick := tick);
      timeline := timeline + (TimelineRow(record) + ['\n']);
      stored := PendingSnapshot(record, pending.body);
    }

    method PersistSupplementary(pending: Pending, tick: nat) returns (ghost stored: Pending)
      requires pending.PendingSupplementary?
      modifies this`supplementary
      ensures (State(), stored) == Persisted(old(State()), pending, tick)
    {
      var record := pending.supplement.(persistCompleteTick := tick);
      supplementary := supplementary + (SupplementaryRow(record) + ['\n']);
      stored := PendingSupplementary(record);
    }

    /** The worker's loop once the recorder is stopping, without a failure: it empties the queue in order.
        `ticks` are the clock's successive readings. */
    method Drain(ticks: seq<nat>) returns (ghost stored: seq<Pending>)
      requires stopping && |ticks| >= |queue|
      modifies this`queue, this`raw, this`rawOffset, this`timeline, this`supplementary
      ensures queue == []
      ensures (State().(queue := old(queue)), stored) == PersistAll(old(State()), old(queue), ticks)
    {
      hide Persisted;
      stored := [];
      var taken := 0;
      while queue != []
        invariant 0 <= taken <= |old(queue)| && queue == old(queue)[taken..]
        invariant (State().(queue := old(queue)), stored) == PersistAll(old(State()), old(queue)[..taken], ticks)
        decreases |queue|
      {
        var pending := queue[0];
        assert old(queue)[..taken + 1][..taken] == old(queue)[..taken];
        queue := queue[1..];
        PersistIgnoresQueue(State(), old(queue), pending, ticks[taken]);
        ghost var one;
        if pending.PendingSnapshot? {
          one := PersistSnapshot(pending, ticks[taken]);
        } else {
          one := PersistSupplementary(pending, ticks[taken]);
        }
        stored := stored + [one];
        taken := taken + 1;
      }
      assert old(queue)[..taken] == old(queue);
    }
  }

  lemma PersistIgnoresQueue(r: RecorderState, queue: seq<Pending>, p: Pending, tick: nat)
    ensures Persisted(r.(queue := queue), p, tick) ==
      (Persisted(r, p, tick).0.(queue := queue), Persisted(r, p, tick).1)
  {
    hide TimelineRow, SupplementaryRow;
  }

  /** All records of a queue persisted in order. */
  function PersistAll(r: RecorderState, queue: seq<Pending>, ticks: seq<nat>): (RecorderState, seq<Pending>)
    requires |ticks| >= |queue|
  {
    if queue == [] then (r, [])
    else
      var n := |queue| - 1;
      var (r1, stored) := PersistAll(r, queue[..n], ticks);
      var (r2, last) := Persisted(r1, queue[n], ticks[n]);
      (r2, stored + [last])
  }
}
