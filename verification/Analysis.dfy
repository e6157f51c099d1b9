/** Offline analysis of a recorded session: the fold that must agree with the live worker. */
module Analysis {
  import opened Telemetry
  import opened EventDetection
  import opened SemanticResolution
  import opened Json
  import opened GameStates
  import opened SessionFiles
  import opened Spine
  import opened LivePipeline

  /** What the command prints. */
  datatype Report = Report(
    batches: seq<seq<Event>>,  // the non-empty ones
    counts: map<EventKind, nat>,
    gsi: nat,
    supplementary: nat,
    invalid: nat)

  /** An item with its body loaded; None if the load throws. */
  function ReplayObservation(session: Session, item: ReplayItem): Option<Observation> {
    match item
    case GsiItem(entry) =>
      var body := LoadReplayBody(session, entry);
      if body.None? then None
      else Some(Reported(NormalizeGsi(body.value, entry.record.sequence, entry.record.relativeUs)))
    case SupplementItem(entry) => Some(Counted(entry.record.snapshot))
  }

  function ReplayObservations(session: Session, items: seq<ReplayItem>): Option<seq<Observation>> {
    if items == [] then Some([])
    else
      var init, last := ReplayObservations(session, items[..|items| - 1]), ReplayObservation(session, items[|items| - 1]);
      if init.None? || last.None? then None else Some(init.value + [last.value])
  }

  function Replayed(session: Session): Option<seq<Observation>> {
    var items := LoadReplayStream(session);
    if items.None? then None else ReplayObservations(session, items.value)
  }

  function Tally(counts: map<EventKind, nat>, events: seq<Event>): map<EventKind, nat> {
    if events == [] then counts
    else
      var init, kind := Tally(counts, events[..|events| - 1]), events[|events| - 1].kind;
      init[kind := (if kind in init then init[kind] else 0) + 1]
  }

  function Occurrences(kind: EventKind, events: seq<Event>): nat {
    if events == [] then 0
    else Occurrences(kind, events[..|events| - 1]) + if events[|events| - 1].kind == kind then 1 else 0
  }

  /** The count of a kind is the number of its events; kinds that never occurred are absent. */
  lemma {:induction false} TallyCounts(events: seq<Event>, kind: EventKind)
    ensures (kind in Tally(map[], events)) == (Occurrences(kind, events) > 0)
    ensures kind in Tally(map[], events) ==> Tally(map[], events)[kind] == Occurrences(kind, events)
  {
    if events != [] {
      TallyCounts(events[..|events| - 1], kind);
      TallyCounts(events[..|events| - 1], events[|events| - 1].kind);
    }
  }

  lemma {:induction false} TallyMore(counts: map<EventKind, nat>, a: seq<Event>, b: seq<Event>)
    ensures Tally(counts, a + b) == Tally(Tally(counts, a), b)
    decreases |b|
  {
    if b == [] {
      assert a + b == a;
    } else {
      assert (a + b)[..|a + b| - 1] == a + b[..|b| - 1];
      TallyMore(counts, a, b[..|b| - 1]);
    }
  }

  function CountWhere(obs: seq<Observation>, n: nat, wanted: Observation -> bool): nat
    requires n <= |obs|
  {
    if n == 0 then 0 else CountWhere(obs, n - 1, wanted) + if wanted(obs[n - 1]) then 1 else 0
  }

  const IS_GSI := (o: Observation) => o.Reported?
  const IS_SUPPLEMENT := (o: Observation) => o.Counted?
  const IS_INVALID := (o: Observation) => o.Reported? && !o.state.payloadValid

  function ReportOf(obs: seq<Observation>, n: nat): Report
    requires n <= |obs|
  {
    Report(Visible(DEFAULT_CONFIG, obs, n), Tally(map[], WholeTrace(DEFAULT_CONFIG, obs, n)),
           CountWhere(obs, n, IS_GSI), CountWhere(obs, n, IS_SUPPLEMENT), CountWhere(obs, n, IS_INVALID))
  }

  /** The analyzer's locals. */
  class Analyzer {
    const detector: EventDetector
    const resolver: SemanticResolver
    var batches: seq<seq<Event>>
    var counts: map<EventKind, nat>
    var gsi: nat
    var supplementary: nat
    var invalid: nat

    ghost predicate Valid()
    {
      resolver.config == DEFAULT_CONFIG
    }

    ghost function State(): SpineState
      reads detector, resolver
    {
      SpineState(detector.State(), resolver.State())
    }

    ghost function Totals(): Report
      reads this
    {
      Report(batches, counts, gsi, supplementary, invalid)
    }

    constructor ()
      ensures Valid() && fresh(detector) && fresh(resolver)
      ensures State() == START && Totals() == Report([], map[], 0, 0, 0)
    {
      detector := new EventDetector();
      resolver := new SemanticResolver(DEFAULT_CONFIG);
      batches, counts, gsi, supplementary, invalid := [], map[], 0, 0, 0;
    }

    method Summary() returns (report: Report)
      ensures report == Totals() && report.invalid == invalid
    {
      report := Report(batches, counts, gsi, supplementary, invalid);
    }

    method CountEvents(events: seq<Event>)
      modifies this`counts
      ensures counts == Tally(old(counts), events)
    {
      for k := 0 to |events|
        invariant counts == Tally(old(counts), events[..k])
      {
        assert events[..k + 1][..k] == events[..k];
        var kind := events[k].kind;
        counts := counts[kind := (if kind in counts then counts[kind] else 0) + 1];
      }
      assert events[..|events|] == events;
    }

    /** One pass of the loop; false where loading the body throws. */
    method AnalyzeItem(session: Session, item: ReplayItem) returns (ok: bool)
      requires Valid()
      modifies this, detector, resolver
      ensures Valid()
      ensures ok == ReplayObservation(session, item).Some?
      ensures ok ==>
        var o := ReplayObservation(session, item).value;
        var before, fed := old(Totals()), Feed(DEFAULT_CONFIG, old(State()), o);
        && State() == fed.0
        && Totals() == Report(
             before.batches + if fed.1 != [] then [fed.1] else [], Tally(before.counts, fed.1),
             before.gsi + (if o.Reported? then 1 else 0), before.supplementary + (if o.Counted? then 1 else 0),
             before.invalid + (if IS_INVALID(o) then 1 else 0))
    {
      hide Detect, ProcessGsi, ProcessSupplement, NormalizeGsi, Tally, LoadReplayBody;
      var events: seq<Event> := [];
      NoTally(counts);
      match item {
        case GsiItem(entry) =>
          var body := LoadReplayBody(session, entry);
          if body.None? {
            return false;
          }
          gsi := gsi + 1;
          var state := NormalizeGsi(body.value, entry.record.sequence, entry.record.relativeUs);
          if !state.payloadValid {
            invalid := invalid + 1;
            return true;
          }
          events := detector.Process(state);
          var semantic := resolver.ProcessGsiState(state, events);
          events := events + semantic;
        case SupplementItem(entry) =>
          supplementary := supplementary + 1;
          events := resolver.ProcessSupplementary(entry.record.snapshot);
      }
      if events != [] {
        batches := batches + [events];
      }
      CountEvents(events);
      ok := true;
    }
  }

  lemma NoTally(counts: map<EventKind, nat>)
    ensures Tally(counts, []) == counts
  {
  }

  lemma ReportStep(obs: seq<Observation>, o: Observation)
    ensures
      var n, all := |obs|, obs + [o];
      var before, batch := ReportOf(obs, n), Feed(DEFAULT_CONFIG, StateAt(DEFAULT_CONFIG, obs, n), o).1;
      ReportOf(all, n + 1) == Report(
        before.batches + if batch != [] then [batch] else [], Tally(before.counts, batch),
        before.gsi + (if o.Reported? then 1 else 0), before.supplementary + (if o.Counted? then 1 else 0),
        before.invalid + (if IS_INVALID(o) then 1 else 0))
  {
    hide Feed, Tally, Visible, StateAt, WholeTrace, BatchAt, CountWhere;
    var n, all := |obs|, obs + [o];
    assert all[n] == o;
    TraceStep(obs, o);
    CountStep(obs, o, IS_GSI);
    CountStep(obs, o, IS_SUPPLEMENT);
    CountStep(obs, o, IS_INVALID);
    TallyMore(map[], WholeTrace(DEFAULT_CONFIG, obs, n), BatchAt(DEFAULT_CONFIG, all, n));
  }

  lemma TraceStep(obs: seq<Observation>, o: Observation)
    ensures
      var n, all := |obs|, obs + [o];
      var batch := Feed(DEFAULT_CONFIG, StateAt(DEFAULT_CONFIG, obs, n), o).1;
      && BatchAt(DEFAULT_CONFIG, all, n) == batch
      && WholeTrace(DEFAULT_CONFIG, all, n + 1) == WholeTrace(DEFAULT_CONFIG, obs, n) + batch
      && Visible(DEFAULT_CONFIG, all, n + 1) == Visible(DEFAULT_CONFIG, obs, n) + if batch != [] then [batch] else []
  {
    hide Feed, StateAt;
    assert (obs + [o])[|obs|] == o;
    PrefixRun(DEFAULT_CONFIG, obs, [o], |obs|);
    VisiblePrefix(DEFAULT_CONFIG, obs, [o], |obs|);
  }

  lemma CountStep(obs: seq<Observation>, o: Observation, wanted: Observation -> bool)
    ensures CountWhere(obs + [o], |obs| + 1, wanted) == CountWhere(obs, |obs|, wanted) + if wanted(o) then 1 else 0
  {
    CountPrefix(obs, o, |obs|, wanted);
    assert (obs + [o])[|obs|] == o;
  }

  lemma {:induction false} CountPrefix(obs: seq<Observation>, o: Observation, n: nat, wanted: Observation -> bool)
    requires n <= |obs|
    ensures CountWhere(obs + [o], n, wanted) == CountWhere(obs, n, wanted)
  {
    if n > 0 {
      CountPrefix(obs, o, n - 1, wanted);
    }
  }

  /** The command: None where an exception ends it, else what it prints and its exit code. */
  method CommandAnalyze(session: Session) returns (report: Option<Report>, exitCode: int)
    ensures report.Some? == Replayed(session).Some?
    ensures report.Some? ==> report.value == ReportOf(Replayed(session).value, |Replayed(session).value|)
    ensures exitCode == if report.None? then 2 else if report.value.invalid == 0 then 0 else 3
  {
    hide *;
    var stream := ReadReplayStream(session);
    if stream.None? {
      NothingReplayed(session);
      return None, 2;
    }
    var items := stream.value;
    var analyzer := new Analyzer();
    ghost var obs: seq<Observation> := [];
    NothingYet(session, items);
    for k := 0 to |items|
      invariant analyzer.Valid() && fresh(analyzer) && fresh(analyzer.detector) && fresh(analyzer.resolver)
      invariant ReplayObservations(session, items[..k]) == Some(obs)
      invariant analyzer.State() == StateAt(DEFAULT_CONFIG, obs, |obs|)
      invariant analyzer.Totals() == ReportOf(obs, |obs|)
    {
      OneMore(session, items, k, obs);
      var ok := analyzer.AnalyzeItem(session, items[k]);
      if !ok {
        return None, 2;
      }
      obs := obs + [ReplayObservation(session, items[k]).value];
    }
    AllReplayed(session, items, obs);
    var totals := analyzer.Summary();
    report := Some(totals);
    exitCode := if totals.invalid == 0 then 0 else 3;
  }

  lemma NothingReplayed(session: Session)
    ensures LoadReplayStream(session).None? ==> Replayed(session).None?
  {
  }

  lemma NothingYet(session: Session, items: seq<ReplayItem>)
    ensures ReplayObservations(session, items[..0]) == Some([]) && StateAt(DEFAULT_CONFIG, [], 0) == START
    ensures ReportOf([], 0) == Report([], map[], 0, 0, 0)
  {
    EmptyReport();
  }

  /** The effect of one more item on everything the loop keeps. */
  lemma OneMore(session: Session, items: seq<ReplayItem>, k: nat, obs: seq<Observation>)
    requires k < |items| && ReplayObservations(session, items[..k]) == Some(obs)
    ensures
      var loaded := ReplayObservation(session, items[k]);
      if loaded.None? then LoadReplayStream(session) == Some(items) ==> Replayed(session).None?
      else
        var o := loaded.value;
        var all, before, fed := obs + [o], ReportOf(obs, |obs|), Feed(DEFAULT_CONFIG, StateAt(DEFAULT_CONFIG, obs, |obs|), o);
        && ReplayObservations(session, items[..k + 1]) == Some(all)
        && StateAt(DEFAULT_CONFIG, all, |all|) == fed.0
        && ReportOf(all, |all|) == Report(
             before.batches + if fed.1 != [] then [fed.1] else [], Tally(before.counts, fed.1),
             before.gsi + (if o.Reported? then 1 else 0), before.supplementary + (if o.Counted? then 1 else 0),
             before.invalid + (if IS_INVALID(o) then 1 else 0))
  {
    hide ReportOf, Feed, ReplayObservation, LoadReplayStream, Tally;
    assert items[..k + 1][..k] == items[..k];
    if ReplayObservation(session, items[k]).None? {
      FailedLoad(session, items, k);
    } else {
      var o := ReplayObservation(session, items[k]).value;
      ReportStep(obs, o);
      PrefixRun(DEFAULT_CONFIG, obs, [o], |obs|);
    }
  }

  lemma AllReplayed(session: Session, items: seq<ReplayItem>, obs: seq<Observation>)
    requires LoadReplayStream(session) == Some(items) && ReplayObservations(session, items[..|items|]) == Some(obs)
    ensures Replayed(session) == Some(obs)
  {
    hide LoadReplayStream, ReplayObservations;
    assert items[..|items|] == items;
  }

  lemma EmptyReport()
    ensures ReportOf([], 0) == Report([], map[], 0, 0, 0)
  {
  }

  /** One body that cannot be loaded fails the whole command. */
  lemma {:induction false} FailedLoad(session: Session, items: seq<ReplayItem>, k: nat)
    requires k < |items| && ReplayObservation(session, items[k]).None?
    ensures ReplayObservations(session, items).None?
    decreases |items|
  {
    if k < |items| - 1 {
      FailedLoad(session, items[..|items| - 1], k);
    }
  }

  // ----- What the printed totals mean -----

  /** The positions before `n` that satisfy a condition. */
  ghost function Positions(obs: seq<Observation>, n: nat, wanted: Observation -> bool): set<nat>
    requires n <= |obs|
  {
    set k: nat | k < n && wanted(obs[k])
  }

  lemma {:induction false} CountsPositions(obs: seq<Observation>, n: nat, wanted: Observation -> bool)
    requires n <= |obs|
    ensures CountWhere(obs, n, wanted) == |Positions(obs, n, wanted)|
  {
    if n > 0 {
      CountsPositions(obs, n - 1, wanted);
      var before := Positions(obs, n - 1, wanted);
      assert Positions(obs, n, wanted) == if wanted(obs[n - 1]) then before + {n - 1} else before;
    }
  }

  /** Every observation is counted once by its source, and the invalid ones are the GSI states
      without a usable payload. */
  lemma TotalsExactly(obs: seq<Observation>)
    ensures
      var report := ReportOf(obs, |obs|);
      && report.gsi == |set k: nat | k < |obs| && obs[k].Reported?|
      && report.supplementary == |set k: nat | k < |obs| && obs[k].Counted?|
      && report.invalid == |set k: nat | k < |obs| && obs[k].Reported? && !obs[k].state.payloadValid|
  {
    var n := |obs|;
    CountsPositions(obs, n, IS_GSI);
    CountsPositions(obs, n, IS_SUPPLEMENT);
    CountsPositions(obs, n, IS_INVALID);
    assert Positions(obs, n, IS_GSI) == set k: nat | k < n && obs[k].Reported?;
    assert Positions(obs, n, IS_SUPPLEMENT) == set k: nat | k < n && obs[k].Counted?;
    assert Positions(obs, n, IS_INVALID) == set k: nat | k < n && obs[k].Reported? && !obs[k].state.payloadValid;
    hide CountWhere, Visible, Tally, WholeTrace;
  }

  /** A stored body that is not the text of an object. */
  ghost predicate Unreadable(session: Session, item: ReplayItem) {
    item.GsiItem? && !exists body, values ::
      LoadReplayBody(session, item.gsi) == Some(body) && Parse(body) == Some(Obj(values))
  }

  lemma {:induction false} ObservationsLoaded(session: Session, items: seq<ReplayItem>)
    requires ReplayObservations(session, items).Some?
    ensures
      var obs := ReplayObservations(session, items).value;
      |obs| == |items| && forall k :: 0 <= k < |items| ==> ReplayObservation(session, items[k]) == Some(obs[k])
    decreases |items|
  {
    hide ReplayObservation;
    if items != [] {
      ObservationsLoaded(session, items[..|items| - 1]);
    }
  }

  lemma UnreadableExactly(session: Session, item: ReplayItem)
    requires ReplayObservation(session, item).Some?
    ensures
      var o := ReplayObservation(session, item).value;
      Unreadable(session, item) <==> o.Reported? && !o.state.payloadValid
  {
    hide Parse, NormalizeValue, LoadReplayBody;
    if item.GsiItem? {
      var body := LoadReplayBody(session, item.gsi).value;
      UsableBody(body, item.gsi.record.sequence, item.gsi.record.relativeUs);
      hide NormalizeGsi;
      if Parse(body).Some? && Parse(body).value.Obj? {
        assert Parse(body) == Some(Obj(Parse(body).value.values));
      }
    }
  }

  lemma UsableBody(body: string, sequence: nat, us: nat)
    ensures NormalizeGsi(body, sequence, us).payloadValid <==> Parse(body).Some? && Parse(body).value.Obj?
  {
    hide Parse, ReadString, ReadInt, ReadCarried;
  }

  /** The exit code reports an invalid payload exactly when some stored body is not the text of an object. */
  lemma InvalidExactly(session: Session, items: seq<ReplayItem>)
    requires LoadReplayStream(session) == Some(items) && Replayed(session).Some?
    ensures
      var obs := Replayed(session).value;
      |obs| == |items| && (ReportOf(obs, |obs|).invalid > 0 <==> exists k :: 0 <= k < |items| && Unreadable(session, items[k]))
  {
    hide ReplayObservation, LoadReplayStream, ReportOf, Unreadable;
    var obs := Replayed(session).value;
    ObservationsLoaded(session, items);
    TotalsExactly(obs);
    var invalid := set k: nat | k < |obs| && obs[k].Reported? && !obs[k].state.payloadValid;
    forall k | 0 <= k < |items| ensures Unreadable(session, items[k]) <==> k in invalid {
      UnreadableExactly(session, items[k]);
    }
    if |invalid| > 0 {
      var k :| k in invalid;
      assert Unreadable(session, items[k]);
    }
  }
}
