/** The kind of provider behind a supplement never matters: replayed evidence leads to the
    same events as the live evidence it was recorded from. */
module SourceBlind {
  import opened Telemetry
  import opened EventDetection
  import opened SupplementaryCounts
  import opened SemanticResolution
  import opened Spine

  function BlurSnapshot(snap: Snapshot): Snapshot { snap.(source := Replay) }

  function BlurResolver(r: Resolver): Resolver {
    r.(context := r.context.(supplementSource := Replay),
       supplement := if r.supplement.Some? then Some(BlurSnapshot(r.supplement.value)) else None)
  }

  function BlurSpine(sp: SpineState): SpineState { SpineState(sp.detector, BlurResolver(sp.resolver)) }

  function BlurObservation(o: Observation): Observation {
    if o.Counted? then Counted(BlurSnapshot(o.snap)) else o
  }

  /** Equal but for the provider kind of the last supplement. */
  predicate SameButSource(a: SpineState, b: SpineState) { BlurSpine(a) == BlurSpine(b) }

  lemma BlurSeen(r: Resolver, snap: Snapshot)
    ensures Seen(BlurResolver(r), BlurSnapshot(snap)) == Seen(r, snap)
  {
  }

  lemma BlurCounted(c: Context, view: Option<Perspective>, snap: Snapshot)
    ensures CountedContext(c.(supplementSource := Replay), view, BlurSnapshot(snap)) ==
      CountedContext(c, view, snap).(supplementSource := Replay)
  {
  }

  lemma BlurCounts(r: Resolver, snap: Snapshot)
    ensures WithCounts(BlurResolver(r), BlurSnapshot(snap)) == BlurResolver(WithCounts(r, snap))
  {
    BlurSeen(r, snap);
    BlurCounted(r.context, Seen(r, snap), snap);
    hide Seen, CountedContext;
  }

  lemma BlurRoster(r: Resolver, snap: Snapshot)
    ensures WithRoster(BlurResolver(r), BlurSnapshot(snap)) == BlurResolver(WithRoster(r, snap))
  {
  }

  lemma BlurClutchEnd(r: Resolver, us: nat)
    ensures ClutchEnd(BlurResolver(r), us) == (BlurResolver(ClutchEnd(r, us).0), ClutchEnd(r, us).1)
  {
  }

  lemma BlurClutchParts(r: Resolver)
    ensures forall a, o :: WithClutch(BlurResolver(r), a, o) == BlurResolver(WithClutch(r, a, o))
    ensures ClutchEvaluable(BlurResolver(r)) == ClutchEvaluable(r)
    ensures forall v :: ClutchNow(BlurResolver(r), v) == ClutchNow(r, v)
  {
  }

  lemma BlurEvaluateClutch(r: Resolver, us: nat)
    ensures EvaluateClutch(BlurResolver(r), us) == (BlurResolver(EvaluateClutch(r, us).0), EvaluateClutch(r, us).1)
  {
    BlurClutchEnd(r, us);
    BlurClutchParts(r);
    if ClutchEvaluable(r) {
      BlurSeen(r, r.supplement.value);
      hide Seen, ClutchNow, SemanticEvent, WithClutch, ClutchEnd;
    } else {
      hide Seen, ClutchNow, SemanticEvent, WithClutch, ClutchEnd, ClutchEvaluable;
    }
  }

  lemma BlurEvaluateAce(cfg: Config, r: Resolver, us: nat)
    ensures EvaluateAce(cfg, BlurResolver(r), us) == (BlurResolver(EvaluateAce(cfg, r, us).0), EvaluateAce(cfg, r, us).1)
  {
    if r.supplement.Some? {
      BlurSeen(r, r.supplement.value);
    }
    hide Seen;
  }

  lemma BlurInterpret(cfg: Config, r: Resolver, snap: Snapshot, us: nat)
    ensures Interpret(cfg, BlurResolver(r), BlurSnapshot(snap), us) ==
      (BlurResolver(Interpret(cfg, r, snap, us).0), Interpret(cfg, r, snap, us).1)
  {
    BlurCounts(r, snap);
    BlurRoster(WithCounts(r, snap), snap);
    var o := Observe(r, snap);
    assert Observe(BlurResolver(r), BlurSnapshot(snap)) == BlurResolver(o);
    BlurEvaluateClutch(o, us);
    BlurEvaluateAce(cfg, EvaluateClutch(o, us).0, us);
    hide Observe, EvaluateClutch, EvaluateAce, BlurResolver, BlurSnapshot;
  }

  lemma BlurEvaluate(cfg: Config, r: Resolver, us: nat)
    ensures Evaluate(cfg, BlurResolver(r), us) == (BlurResolver(Evaluate(cfg, r, us).0), Evaluate(cfg, r, us).1)
  {
    hide Interpret;
    if CurrentRoundSupplement(cfg, r, us) {
      BlurInterpret(cfg, r, r.supplement.value, us);
    }
  }

  lemma BlurBaseline(cfg: Config, r: Resolver, snap: Snapshot)
    ensures WithBaseline(cfg, BlurResolver(r), BlurSnapshot(snap)) == BlurResolver(WithBaseline(cfg, r, snap))
  {
  }

  lemma BlurBegun(r: Resolver, s: GameState)
    ensures Begun(BlurResolver(r), s) == BlurResolver(Begun(r, s))
    ensures WithoutCounts(BlurResolver(r)) == BlurResolver(WithoutCounts(r))
  {
  }

  lemma BlurRoundStart(cfg: Config, r: Resolver, s: GameState)
    ensures WithRoundStart(cfg, BlurResolver(r), s) == BlurResolver(WithRoundStart(cfg, r, s))
  {
    var b := Begun(r, s);
    BlurBegun(r, s);
    assert BlurResolver(b).supplement.Some? == b.supplement.Some?;
    if b.supplement.Some? && FreshAt(cfg, b.supplement.value, s.relativeUs) {
      BlurBaseline(cfg, b, b.supplement.value);
      BlurBegun(WithBaseline(cfg, b, b.supplement.value), s);
    } else {
      BlurBegun(b, s);
    }
    hide Begun, WithBaseline, WithoutCounts;
  }

  lemma BlurLocalPlayer(r: Resolver, s: GameState, facts: seq<Event>)
    ensures WithLifecycle(WithLocalPlayer(BlurResolver(r), s, facts), s) ==
      BlurResolver(WithLifecycle(WithLocalPlayer(r, s, facts), s))
  {
  }

  /** Not an identity on the initial state, whose source is Unknown: equal once blurred. */
  lemma BlurPrepare(cfg: Config, r: Resolver, s: GameState, facts: seq<Event>)
    ensures BlurResolver(Prepare(cfg, BlurResolver(r), s, facts)) == BlurResolver(Prepare(cfg, r, s, facts))
  {
    var r0 := if Has(facts, MatchEntered) then INITIAL else r;
    BlurLocalPlayer(r0, s, facts);
    BlurRoundStart(cfg, WithLifecycle(WithLocalPlayer(r0, s, facts), s), s);
    BlurTwice(WithLifecycle(WithLocalPlayer(r0, s, facts), s));
    BlurTwice(WithRoundStart(cfg, WithLifecycle(WithLocalPlayer(r0, s, facts), s), s));
    hide Has, WithLocalPlayer, WithLifecycle, WithRoundStart, BlurResolver;
  }

  lemma BlurTwice(r: Resolver)
    ensures BlurResolver(BlurResolver(r)) == BlurResolver(r)
  {
  }

  lemma BlurClose(r: Resolver, us: nat, facts: seq<Event>)
    ensures BlurResolver(Close(BlurResolver(r), us, facts).0) == BlurResolver(Close(r, us, facts).0)
    ensures Close(BlurResolver(r), us, facts).1 == Close(r, us, facts).1
  {
    hide Has, ClutchEnd, INITIAL, BlurResolver;
    var closed := ClutchEnd(r, us).0;
    BlurClutchEnd(r, us);
    if !ClosesRound(facts) {
      BlurTwice(r);
    } else if !Has(facts, MatchLeft) {
      BlurEnded(closed);
      BlurTwice(closed.(ended := true));
    }
  }

  lemma BlurEnded(r: Resolver)
    ensures BlurResolver(r).(ended := true) == BlurResolver(r.(ended := true))
  {
  }

  lemma BlurProcessGsi(cfg: Config, r: Resolver, s: GameState, facts: seq<Event>)
    ensures BlurResolver(ProcessGsi(cfg, BlurResolver(r), s, facts).0) == BlurResolver(ProcessGsi(cfg, r, s, facts).0)
    ensures ProcessGsi(cfg, BlurResolver(r), s, facts).1 == ProcessGsi(cfg, r, s, facts).1
  {
    var b := BlurResolver(r);
    var p, q := Prepare(cfg, r, s, facts), Prepare(cfg, b, s, facts);
    BlurPrepare(cfg, r, s, facts);
    BlurEvaluate(cfg, p, s.relativeUs);
    BlurEvaluate(cfg, q, s.relativeUs);
    BlurClose(Evaluate(cfg, p, s.relativeUs).0, s.relativeUs, facts);
    BlurClose(Evaluate(cfg, q, s.relativeUs).0, s.relativeUs, facts);
    hide Prepare, Evaluate, Close, BlurResolver;
  }

  lemma BlurAccept(r: Resolver, snap: Snapshot)
    ensures Accepts(BlurResolver(r), BlurSnapshot(snap)) == Accepts(r, snap)
    ensures Accepted(BlurResolver(r), BlurSnapshot(snap)) == BlurResolver(Accepted(r, snap))
  {
  }

  lemma BlurProcessSupplement(cfg: Config, r: Resolver, snap: Snapshot)
    ensures ProcessSupplement(cfg, BlurResolver(r), BlurSnapshot(snap)) ==
      (BlurResolver(ProcessSupplement(cfg, r, snap).0), ProcessSupplement(cfg, r, snap).1)
  {
    BlurAccept(r, snap);
    BlurInterpret(cfg, Accepted(r, snap), snap, snap.relativeUs);
    assert BlurResolver(Accepted(r, snap)).latest == Accepted(r, snap).latest;
    assert BlurSnapshot(snap).relativeUs == snap.relativeUs;
    hide Interpret, Accepts, Accepted, BlurResolver, BlurSnapshot;
  }

  /** One observation keeps the two sides equal but for the source, and emits the same batch. */
  lemma BlurFeed(cfg: Config, sp: SpineState, o: Observation)
    ensures SameButSource(Feed(cfg, BlurSpine(sp), BlurObservation(o)).0, Feed(cfg, sp, o).0)
    ensures Feed(cfg, BlurSpine(sp), BlurObservation(o)).1 == Feed(cfg, sp, o).1
  {
    match o
    case Reported(s) =>
      if s.payloadValid {
        BlurProcessGsi(cfg, sp.resolver, s, Detect(sp.detector, s).1);
        hide Detect, ProcessGsi, BlurResolver;
      } else {
        BlurTwice(sp.resolver);
        hide Detect, ProcessGsi, BlurResolver;
      }
    case Counted(snap) =>
      BlurProcessSupplement(cfg, sp.resolver, snap);
      BlurTwice(ProcessSupplement(cfg, sp.resolver, snap).0);
      hide ProcessSupplement, BlurResolver;
  }

  /** Two runs whose observations differ only in the supplements' sources. */
  lemma {:induction false} SourcesNeverMatter(cfg: Config, a: seq<Observation>, b: seq<Observation>, n: nat)
    requires n <= |a| == |b|
    requires forall k :: 0 <= k < |a| ==> BlurObservation(a[k]) == BlurObservation(b[k])
    ensures SameButSource(StateAt(cfg, a, n), StateAt(cfg, b, n))
    ensures n < |a| ==> BatchAt(cfg, a, n) == BatchAt(cfg, b, n)
  {
    hide Feed, BlurSpine, BlurObservation;
    if n > 0 {
      SourcesNeverMatter(cfg, a, b, n - 1);
      BlurFeed(cfg, StateAt(cfg, a, n - 1), a[n - 1]);
      BlurFeed(cfg, StateAt(cfg, b, n - 1), b[n - 1]);
    }
    if n < |a| {
      BlurFeed(cfg, StateAt(cfg, a, n), a[n]);
      BlurFeed(cfg, StateAt(cfg, b, n), b[n]);
    }
  }
}
