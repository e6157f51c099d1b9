/** The live pipeline's worker: queued items through both stages, and the batches it hands over. */
module LivePipeline {
  import opened Telemetry
  import opened EventDetection
  import opened SemanticResolution
  import opened ResolverTheorems
  import opened GameStates
  import opened Spine

  datatype LiveItem =
    | LiveGsi(sequence: nat, relativeUs: nat, body: string)
    | LiveSupplement(snap: Snapshot)

  function ObservationOf(item: LiveItem): Observation {
    match item
    case LiveGsi(sequence, us, body) => Reported(NormalizeGsi(body, sequence, us))
    case LiveSupplement(snap) => Counted(snap)
  }

  function ObservationsOf(items: seq<LiveItem>): (r: seq<Observation>)
    ensures |r| == |items| && forall k :: 0 <= k < |r| ==> r[k] == ObservationOf(items[k])
  {
    seq(|items|, k requires 0 <= k < |items| => ObservationOf(items[k]))
  }

  /** What the handler is given. */
  datatype Batch = Batch(state: GameState, events: seq<Event>)

  datatype WorkerState = WorkerState(spine: SpineState, latest: Option<GameState>, batches: seq<Batch>)

  const FRESH_WORKER := WorkerState(START, None, [])

  /** One pass of the worker's loop, with a default-configured resolver. */
  function Handle(w: WorkerState, item: LiveItem): WorkerState {
    match item
    case LiveSupplement(snap) =>
      var (r, semantic) := ProcessSupplement(DEFAULT_CONFIG, w.spine.resolver, snap);
      WorkerState(w.spine.(resolver := r), w.latest,
                  w.batches + if semantic != [] && w.latest.Some? then [Batch(w.latest.value, semantic)] else [])
    case LiveGsi(sequence, us, body) =>
      var state := NormalizeGsi(body, sequence, us);
      if !state.payloadValid then w
      else
        var (m, facts) := Detect(w.spine.detector, state);
        var (r, semantic) := ProcessGsi(DEFAULT_CONFIG, w.spine.resolver, state, facts);
        var events := facts + semantic;
        WorkerState(SpineState(m, r), Some(state), w.batches + if events != [] then [Batch(state, events)] else [])
  }

  function HandleAll(items: seq<LiveItem>): WorkerState {
    if items == [] then FRESH_WORKER else Handle(HandleAll(items[..|items| - 1]), items[|items| - 1])
  }

  /** The pipeline object. Its worker runs elsewhere (see Interleaving); here a method that throws returns false. */
  class LiveEventPipeline {
    const detector: EventDetector
    const resolver: SemanticResolver
    var latestState: Option<GameState>
    var batches: seq<Batch>
    var queue: seq<LiveItem>
    var stopping: bool
    var stopped: bool
    var workerError: bool

    ghost predicate Valid()
      reads this, resolver
    {
      resolver.config == DEFAULT_CONFIG && (stopped && !workerError ==> queue == [])
    }

    ghost function State(): WorkerState
      reads this, detector, resolver
    {
      WorkerState(SpineState(detector.State(), resolver.State()), latestState, batches)
    }

    constructor ()
      ensures Valid() && State() == FRESH_WORKER
      ensures queue == [] && !stopping && !stopped && !workerError
      ensures fresh(detector) && fresh(resolver)
    {
      detector := new EventDetector();
      resolver := new SemanticResolver(DEFAULT_CONFIG);
      latestState, batches := None, [];
      queue, stopping, stopped, workerError := [], false, false, false;
    }

    method Enqueue(item: LiveItem) returns (ok: bool)
      requires Valid()
      modifies this`queue
      ensures Valid()
      ensures ok == (!stopping && !stopped && !workerError)
      ensures queue == if ok then old(queue) + [item] else old(queue)
    {
      if stopping || stopped || workerError {
        return false;
      }
      queue := queue + [item];
      ok := true;
    }

    /** Stop, let the worker finish what is queued, join it; a worker that failed leaves its queue. */
    method StopAndFlush() returns (ok: bool)
      requires Valid()
      modifies this, detector, resolver
      ensures Valid() && stopped && ok == !workerError && workerError == old(workerError)
      ensures old(stopped) ==> State() == old(State()) && queue == old(queue)
      ensures !old(stopped) ==> stopping
      ensures !old(stopped) && !workerError ==> queue == [] && State() == HandleFrom(old(State()), old(queue))
      ensures !old(stopped) && workerError ==> queue == old(queue) && State() == old(State())
    {
      if stopped {
        return !workerError;
      }
      stopping := true;
      if !workerError {
        DrainQueue();
      }
      stopped := true;
      ok := !workerError;
    }

    method HandleItem(item: LiveItem)
      requires Valid()
      modifies this`latestState, this`batches, detector, resolver
      ensures Valid() && State() == Handle(old(State()), item)
    {
      hide Detect, ProcessGsi, ProcessSupplement, NormalizeGsi;
      match item {
        case LiveSupplement(snap) =>
          var semantic := resolver.ProcessSupplementary(snap);
          if semantic != [] && latestState.Some? {
            batches := batches + [Batch(latestState.value, semantic)];
          }
        case LiveGsi(sequence, us, body) =>
          var state := NormalizeGsi(body, sequence, us);
          if state.payloadValid {
            var events := detector.Process(state);
            latestState := Some(state);
            var semantic := resolver.ProcessGsiState(state, events);
            events := events + semantic;
            if events != [] {
              batches := batches + [Batch(state, events)];
            }
          }
      }
    }

    /** The worker's loop over a queue that nobody extends: first in, first out. */
    method DrainQueue()
      requires Valid()
      modifies this`queue, this`latestState, this`batches, detector, resolver
      ensures Valid() && queue == [] && State() == HandleFrom(old(State()), old(queue))
    {
      hide Handle;
      while queue != []
        invariant Valid() && HandleFrom(State(), queue) == HandleFrom(old(State()), old(queue))
        decreases |queue|
      {
        var item := queue[0];
        queue := queue[1..];
        HandleItem(item);
      }
    }
  }

  /** Items handled one after the other. */
  function HandleFrom(w: WorkerState, items: seq<LiveItem>): WorkerState
    decreases |items|
  {
    if items == [] then w else HandleFrom(Handle(w, items[0]), items[1..])
  }

  lemma {:induction false} HandleFromMore(w: WorkerState, items: seq<LiveItem>, item: LiveItem)
    ensures HandleFrom(w, items + [item]) == Handle(HandleFrom(w, items), item)
    decreases |items|
  {
    hide Handle;
    var all := items + [item];
    if items == [] {
      assert all[0] == item && all[1..] == [];
      assert HandleFrom(Handle(w, item), []) == Handle(w, item);
    } else {
      assert all[0] == items[0] && all[1..] == items[1..] + [item];
      HandleFromMore(Handle(w, items[0]), items[1..], item);
    }
  }

  /** A fresh worker that drains a queue ends where the interleaved worker ends. */
  lemma {:induction false} HandleFromFresh(items: seq<LiveItem>)
    ensures HandleFrom(FRESH_WORKER, items) == HandleAll(items)
  {
    hide Handle, FRESH_WORKER;
    if items != [] {
      var init, item := items[..|items| - 1], items[|items| - 1];
      assert items == init + [item];
      HandleFromFresh(init);
      HandleFromMore(FRESH_WORKER, init, item);
    }
  }

  // ----- The worker runs the spine -----

  /** The events of the non-empty batches. */
  function Visible(cfg: Config, obs: seq<Observation>, n: nat): seq<seq<Event>>
    requires n <= |obs|
  {
    if n == 0 then []
    else Visible(cfg, obs, n - 1) + if BatchAt(cfg, obs, n - 1) != [] then [BatchAt(cfg, obs, n - 1)] else []
  }

  function EventsOf(batches: seq<Batch>): (r: seq<seq<Event>>)
    ensures |r| == |batches| && forall k :: 0 <= k < |r| ==> r[k] == batches[k].events
  {
    seq(|batches|, k requires 0 <= k < |batches| => batches[k].events)
  }

  /** Evidence is interpreted only after a packet, so the worker has a state to show with it. */
  predicate Witnessed(w: WorkerState) { w.spine.resolver.latest.Some? ==> w.latest.Some? }

  lemma SilentBeforeGsi(cfg: Config, r: Resolver, snap: Snapshot)
    requires Inv(cfg, r)
    ensures ProcessSupplement(cfg, r, snap).1 != [] ==> r.latest.Some?
    ensures ProcessSupplement(cfg, r, snap).0.latest == r.latest
  {
    SupplementKinds(cfg, r, snap);
    hide Interpret, Inv;
  }

  lemma GrowEvents(batches: seq<Batch>, b: Batch)
    ensures EventsOf(batches + [b]) == EventsOf(batches) + [b.events]
  {
  }

  lemma HandleFeeds(w: WorkerState, item: LiveItem)
    requires Witnessed(w) && Sound(DEFAULT_CONFIG, w.spine)
    ensures
      var next, fed := Handle(w, item), Feed(DEFAULT_CONFIG, w.spine, ObservationOf(item));
      && Witnessed(next) && next.spine == fed.0
      && EventsOf(next.batches) == EventsOf(w.batches) + if fed.1 != [] then [fed.1] else []
  {
    hide Detect, ProcessGsi, ProcessSupplement, NormalizeGsi, Inv, DetectorTheorems.Valid, EventsOf;
    var next := Handle(w, item);
    if item.LiveSupplement? {
      SilentBeforeGsi(DEFAULT_CONFIG, w.spine.resolver, item.snap);
    }
    if |next.batches| > |w.batches| {
      GrowEvents(w.batches, next.batches[|w.batches|]);
    }
    assert EventsOf(w.batches) + [] == EventsOf(w.batches);
  }

  /** The guard on the latest state never drops a batch: the handler receives exactly the
      non-empty batches of the spine, in order. */
  lemma {:induction false} WorkerRunsSpine(items: seq<LiveItem>)
    ensures
      var w, obs := HandleAll(items), ObservationsOf(items);
      && Witnessed(w)
      && w.spine == StateAt(DEFAULT_CONFIG, obs, |obs|)
      && EventsOf(w.batches) == Visible(DEFAULT_CONFIG, obs, |obs|)
  {
    hide Handle, Feed, ObservationOf, Sound;
    if items != [] {
      var init, item := items[..|items| - 1], items[|items| - 1];
      WorkerRunsSpine(init);
      var before, obs := ObservationsOf(init), ObservationsOf(items);
      AlwaysSound(DEFAULT_CONFIG, before, |before|);
      HandleFeeds(HandleAll(init), item);
      assert obs == before + [ObservationOf(item)];
      PrefixRun(DEFAULT_CONFIG, before, [ObservationOf(item)], |before|);
      VisiblePrefix(DEFAULT_CONFIG, before, [ObservationOf(item)], |before|);
    }
  }

  lemma {:induction false} VisiblePrefix(cfg: Config, a: seq<Observation>, b: seq<Observation>, n: nat)
    requires n <= |a|
    ensures Visible(cfg, a + b, n) == Visible(cfg, a, n)
  {
    hide Feed;
    if n > 0 {
      VisiblePrefix(cfg, a, b, n - 1);
      PrefixRun(cfg, a, b, n - 1);
    }
  }

  // ----- What each batch shows -----

  /** The state of the last usable body among some items. */
  function LastUsable(items: seq<LiveItem>): Option<GameState> {
    if items == [] then None
    else
      match items[|items| - 1]
      case LiveGsi(sequence, us, body) =>
        var state := NormalizeGsi(body, sequence, us);
        if state.payloadValid then Some(state) else LastUsable(items[..|items| - 1])
      case LiveSupplement(_) => LastUsable(items[..|items| - 1])
  }

  /** One batch for every item whose observation emits something, beside the last usable state. */
  ghost predicate Shown(items: seq<LiveItem>, batches: seq<Batch>)
    decreases |items|
  {
    if items == [] then batches == []
    else
      var n := |items| - 1;
      var events := BatchAt(DEFAULT_CONFIG, ObservationsOf(items), n);
      if events == [] then Shown(items[..n], batches)
      else
        && batches != [] && LastUsable(items).Some?
        && batches[|batches| - 1] == Batch(LastUsable(items).value, events)
        && Shown(items[..n], batches[..|batches| - 1])
  }

  lemma LastBatch(items: seq<LiveItem>)
    requires items != []
    ensures
      var n := |items| - 1;
      BatchAt(DEFAULT_CONFIG, ObservationsOf(items), n) ==
        Feed(DEFAULT_CONFIG, HandleAll(items[..n]).spine, ObservationOf(items[n])).1
  {
    hide Feed, ObservationOf, HandleAll, Visible, EventsOf, Witnessed;
    var n := |items| - 1;
    var before, obs := ObservationsOf(items[..n]), ObservationsOf(items);
    WorkerRunsSpine(items[..n]);
    assert obs == before + [ObservationOf(items[n])];
    PrefixRun(DEFAULT_CONFIG, before, [ObservationOf(items[n])], n);
  }

  lemma HandledBatch(w: WorkerState, item: LiveItem)
    requires Witnessed(w) && Sound(DEFAULT_CONFIG, w.spine)
    ensures
      var next, events := Handle(w, item), Feed(DEFAULT_CONFIG, w.spine, ObservationOf(item)).1;
      && next.latest == (if item.LiveGsi? && ObservationOf(item).state.payloadValid then Some(ObservationOf(item).state) else w.latest)
      && (events == [] ==> next.batches == w.batches)
      && (events != [] ==> next.latest.Some? && next.batches == w.batches + [Batch(next.latest.value, events)])
  {
    hide Detect, ProcessGsi, ProcessSupplement, NormalizeGsi, Inv, DetectorTheorems.Valid;
    if item.LiveSupplement? {
      SilentBeforeGsi(DEFAULT_CONFIG, w.spine.resolver, item.snap);
    }
    assert w.batches + [] == w.batches;
  }

  /** The handler receives the non-empty batches, each with the state of the last usable body so far. */
  lemma {:induction false} BatchesExactly(items: seq<LiveItem>)
    ensures HandleAll(items).latest == LastUsable(items) && Shown(items, HandleAll(items).batches)
    decreases |items|
  {
    hide Handle, Feed, ObservationOf, Sound, NormalizeGsi, BatchAt, EventsOf, Visible;
    if items != [] {
      var n := |items| - 1;
      var w := HandleAll(items[..n]);
      BatchesExactly(items[..n]);
      LastBatch(items);
      WorkerRunsSpine(items[..n]);
      AlwaysSound(DEFAULT_CONFIG, ObservationsOf(items[..n]), n);
      HandledBatch(w, items[n]);
      UsableObservation(items[n]);
    }
  }

  lemma UsableObservation(item: LiveItem)
    ensures item.LiveGsi? ==> ObservationOf(item) == Reported(NormalizeGsi(item.body, item.sequence, item.relativeUs))
  {
    hide NormalizeGsi;
  }
}
