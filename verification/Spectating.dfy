/** Who is being spectated never matters: the observed player's identity, team, activity
    and counters influence neither events nor context. */
module Spectating {
  import opened Telemetry
  import opened EventDetection
  import opened GameStates
  import opened SemanticResolution
  import opened Spine

  /** A snapshot with everything about an observed other player blotted out, but for round kills,
      which the resolver reads without asking whose they are. */
  function Veil(s: GameState): GameState {
    if s.localPlayerValid then s
    else s.(observedId := if s.observedId.Some? then Some("") else None,
            playerTeam := None, health := None, flashed := None, smoked := None, burning := None,
            roundHeadshotKills := None, assists := None, mvps := None, carried := NO_CARRIED)
  }

  function VeilOption(o: Option<GameState>): Option<GameState> {
    if o.Some? then Some(Veil(o.value)) else None
  }

  function VeilMemory(m: DetectorMemory): DetectorMemory {
    m.(previous := VeilOption(m.previous))
  }

  function VeilResolver(r: Resolver): Resolver {
    r.(latest := VeilOption(r.latest))
  }

  // ----- The detector -----

  lemma VeilStamp(s: GameState)
    ensures forall k :: Make(k, Veil(s)) == Make(k, s)
    ensures forall c, k :: When(c, k, Veil(s)) == When(c, k, s)
    ensures forall k, p, c :: Rise(k, p, c, Veil(s)) == Rise(k, p, c, s)
  {
  }

  lemma VeilPairwise(p: GameState, s: GameState)
    ensures Pairwise(Veil(p), Veil(s)) == Pairwise(p, s)
  {
  }

  lemma VeilLocal(m: DetectorMemory, s: GameState, entered: bool)
    ensures Opening(VeilMemory(m), entered, Veil(s)) == Opening(m, entered, s)
    ensures Restoration(VeilMemory(m), Veil(s)) == Restoration(m, s)
    ensures Remember(VeilMemory(m), Veil(s)) == VeilMemory(Remember(m, s))
  {
  }

  lemma VeilRounds(m: DetectorMemory, p: GameState, s: GameState)
    ensures LastEndedAfter(VeilMemory(m), Veil(p), Veil(s)) == LastEndedAfter(m, p, s)
    ensures OutcomeAfter(VeilMemory(m), Veil(p), Veil(s)) == OutcomeAfter(m, p, s)
    ensures RoundClose(VeilMemory(m), Veil(p), Veil(s)) == RoundClose(m, p, s)
  {
  }

  lemma VeilPhases(m: DetectorMemory, p: GameState, s: GameState)
    ensures PhaseChanges(VeilMemory(m), Veil(p), Veil(s)) == PhaseChanges(m, p, s)
    ensures BombChanges(Veil(p), Veil(s)) == BombChanges(p, s)
  {
    VeilStamp(s);
    hide When;
    assert TeamChange(VeilMemory(m), Veil(s)) == TeamChange(m, s);
    hide TeamChange;
  }

  lemma VeilAdvance(m: DetectorMemory, p: GameState, s: GameState, entered: bool)
    ensures Advance(VeilMemory(m), Veil(p), Veil(s), entered).1 == Advance(m, p, s, entered).1
    ensures Advance(VeilMemory(m), Veil(p), Veil(s), entered).0 == VeilMemory(Advance(m, p, s, entered).0)
  {
    assert AcquiredNow(VeilMemory(m), Veil(s)) == AcquiredNow(m, s) && LostNow(VeilMemory(m), Veil(s)) == LostNow(m, s)
           && RestoredNow(VeilMemory(m), Veil(s)) == RestoredNow(m, s);
    hide Opening, Restoration, Pairwise, BombChanges, RoundClose, PhaseChanges, LastEndedAfter, OutcomeAfter,
         AcquiredNow, LostNow, RestoredNow, Remember, Veil;
    VeilLocal(m, s, entered);
    VeilPairwise(p, s);
    VeilRounds(m, p, s);
    VeilPhases(m, p, s);
  }

  lemma VeilDetect(m: DetectorMemory, s: GameState)
    ensures Detect(VeilMemory(m), Veil(s)).1 == Detect(m, s).1
    ensures Detect(VeilMemory(m), Veil(s)).0 == VeilMemory(Detect(m, s).0)
  {
    VeilLocal(m, s, false);
    VeilStamp(s);
    hide Opening, Restoration, Remember, Advance;
    var p := if m.previous.Some? then m.previous.value else s;
    assert Veil(s).mapName == s.mapName && Veil(s).payloadValid == s.payloadValid
           && Veil(s).localPlayerValid == s.localPlayerValid && Veil(p).mapName == p.mapName;
    hide Veil, Advance, When, Remember;
    if m.previous.Some? {
      assert Entry(VeilMemory(m), Veil(s)) == VeilMemory(Entry(m, s));
      VeilAdvance(Entry(m, s), p, s, Enters(m, s));
    }
  }

  // ----- The resolver -----

  lemma VeilFields(s: GameState)
    ensures
      var v := Veil(s);
      && v.sequence == s.sequence && v.relativeUs == s.relativeUs && v.payloadValid == s.payloadValid
      && v.mapName == s.mapName && v.mapMode == s.mapMode && v.mapPhase == s.mapPhase
      && v.roundPhase == s.roundPhase && v.roundKills == s.roundKills
      && v.localPlayerValid == s.localPlayerValid
      && (s.localPlayerValid ==> v == s)
  {
  }

  lemma VeilInterpret(cfg: Config, r: Resolver, snap: Snapshot, us: nat)
    ensures Interpret(cfg, VeilResolver(r), snap, us).1 == Interpret(cfg, r, snap, us).1
    ensures Interpret(cfg, VeilResolver(r), snap, us).0 == VeilResolver(Interpret(cfg, r, snap, us).0)
  {
    VeilObserve(r, snap);
    var o := Observe(r, snap);
    hide Observe, EvaluateClutch, EvaluateAce, Veil;
    VeilEvaluateClutch(o, us);
    VeilEvaluateAce(cfg, EvaluateClutch(o, us).0, us);
  }

  lemma VeilWithCounts(r: Resolver, snap: Snapshot)
    ensures WithCounts(VeilResolver(r), snap) == VeilResolver(WithCounts(r, snap))
  {
  }

  lemma VeilSeen(r: Resolver, snap: Snapshot)
    ensures Seen(VeilResolver(r), snap) == Seen(r, snap)
  {
  }

  lemma VeilRoster(r: Resolver, snap: Snapshot)
    ensures WithRoster(VeilResolver(r), snap) == VeilResolver(WithRoster(r, snap))
  {
  }

  lemma VeilObserve(r: Resolver, snap: Snapshot)
    ensures Observe(VeilResolver(r), snap) == VeilResolver(Observe(r, snap))
  {
    hide WithCounts, WithRoster, VeilResolver;
    VeilWithCounts(r, snap);
    VeilRoster(WithCounts(r, snap), snap);
  }

  lemma VeilSemanticEvent(latest: Option<GameState>, us: nat)
    ensures forall k :: SemanticEvent(k, VeilOption(latest), us) == SemanticEvent(k, latest, us)
  {
  }

  lemma VeilClutchParts(r: Resolver, us: nat)
    ensures ClutchEnd(VeilResolver(r), us).1 == ClutchEnd(r, us).1
    ensures ClutchEnd(VeilResolver(r), us).0 == VeilResolver(ClutchEnd(r, us).0)
    ensures forall a, o :: WithClutch(VeilResolver(r), a, o) == VeilResolver(WithClutch(r, a, o))
    ensures ClutchEvaluable(VeilResolver(r)) == ClutchEvaluable(r)
    ensures forall v :: ClutchNow(VeilResolver(r), v) == ClutchNow(r, v)
  {
  }

  lemma VeilEvaluateClutch(r: Resolver, us: nat)
    ensures EvaluateClutch(VeilResolver(r), us).1 == EvaluateClutch(r, us).1
    ensures EvaluateClutch(VeilResolver(r), us).0 == VeilResolver(EvaluateClutch(r, us).0)
  {
    VeilClutchParts(r, us);
    VeilSemanticEvent(r.latest, us);
    if ClutchEvaluable(r) {
      VeilSeen(r, r.supplement.value);
      hide Seen, Veil, ClutchNow, SemanticEvent, WithClutch, ClutchEnd;
    } else {
      hide Seen, Veil, ClutchNow, SemanticEvent, WithClutch, ClutchEnd, ClutchEvaluable;
    }
  }

  lemma VeilEvaluateAce(cfg: Config, r: Resolver, us: nat)
    ensures EvaluateAce(cfg, VeilResolver(r), us).1 == EvaluateAce(cfg, r, us).1
    ensures EvaluateAce(cfg, VeilResolver(r), us).0 == VeilResolver(EvaluateAce(cfg, r, us).0)
  {
  }

  lemma VeilLocalPlayer(r: Resolver, s: GameState, facts: seq<Event>)
    ensures WithLocalPlayer(VeilResolver(r), Veil(s), facts) == VeilResolver(WithLocalPlayer(r, s, facts))
  {
  }

  lemma VeilLifecycle(r: Resolver, s: GameState)
    ensures WithLifecycle(VeilResolver(r), Veil(s)) == VeilResolver(WithLifecycle(r, s))
  {
  }

  lemma VeilBegun(r: Resolver, s: GameState)
    ensures Begun(VeilResolver(r), Veil(s)) == VeilResolver(Begun(r, s))
  {
  }

  lemma VeilBaseline(cfg: Config, r: Resolver, snap: Snapshot)
    ensures WithBaseline(cfg, VeilResolver(r), snap) == VeilResolver(WithBaseline(cfg, r, snap))
  {
  }

  lemma VeilWithout(r: Resolver)
    ensures WithoutCounts(VeilResolver(r)) == VeilResolver(WithoutCounts(r))
  {
  }

  lemma VeilRoundStart(cfg: Config, r: Resolver, s: GameState)
    ensures WithRoundStart(cfg, VeilResolver(r), Veil(s)) == VeilResolver(WithRoundStart(cfg, r, s))
  {
    VeilFields(s);
    var b := Begun(r, s);
    VeilBegun(r, s);
    if b.supplement.Some? {
      VeilBaseline(cfg, b, b.supplement.value);
    }
    VeilWithout(if b.supplement.Some? && FreshAt(cfg, b.supplement.value, s.relativeUs)
                then WithBaseline(cfg, b, b.supplement.value) else b);
    hide Begun, WithBaseline, WithoutCounts, Veil;
  }

  lemma VeilPrepare(cfg: Config, r: Resolver, s: GameState, facts: seq<Event>)
    ensures Prepare(cfg, VeilResolver(r), Veil(s), facts) == VeilResolver(Prepare(cfg, r, s, facts))
  {
    assert VeilResolver(INITIAL) == INITIAL;
    hide Has, VeilResolver, Veil, WithLocalPlayer, WithLifecycle, WithRoundStart;
    var r0 := if Has(facts, MatchEntered) then INITIAL else r;
    VeilLocalPlayer(r0, s, facts);
    VeilLifecycle(WithLocalPlayer(r0, s, facts), s);
    VeilRoundStart(cfg, WithLifecycle(WithLocalPlayer(r0, s, facts), s), s);
  }

  lemma VeilProcessGsi(cfg: Config, r: Resolver, s: GameState, facts: seq<Event>)
    ensures ProcessGsi(cfg, VeilResolver(r), Veil(s), facts).1 == ProcessGsi(cfg, r, s, facts).1
    ensures ProcessGsi(cfg, VeilResolver(r), Veil(s), facts).0 == VeilResolver(ProcessGsi(cfg, r, s, facts).0)
  {
    VeilFields(s);
    VeilPrepare(cfg, r, s, facts);
    var p := Prepare(cfg, r, s, facts);
    VeilEvaluate(cfg, p, s.relativeUs);
    VeilClose(Evaluate(cfg, p, s.relativeUs).0, s.relativeUs, facts);
    hide Prepare, Evaluate, Close, Veil, VeilResolver;
  }

  lemma VeilEvaluate(cfg: Config, r: Resolver, us: nat)
    ensures Evaluate(cfg, VeilResolver(r), us).1 == Evaluate(cfg, r, us).1
    ensures Evaluate(cfg, VeilResolver(r), us).0 == VeilResolver(Evaluate(cfg, r, us).0)
  {
    hide Interpret, Veil;
    if CurrentRoundSupplement(cfg, r, us) {
      VeilInterpret(cfg, r, r.supplement.value, us);
    }
  }

  lemma VeilClose(r: Resolver, us: nat, facts: seq<Event>)
    ensures Close(VeilResolver(r), us, facts).1 == Close(r, us, facts).1
    ensures Close(VeilResolver(r), us, facts).0 == VeilResolver(Close(r, us, facts).0)
  {
    VeilClutchParts(r, us);
    assert VeilResolver(INITIAL) == INITIAL;
    hide Veil, Has, ClutchEnd, WithClutch;
  }

  lemma VeilAccepts(r: Resolver, snap: Snapshot)
    ensures Accepts(VeilResolver(r), snap) == Accepts(r, snap)
    ensures Accepted(VeilResolver(r), snap) == VeilResolver(Accepted(r, snap))
  {
  }

  lemma VeilProcessSupplement(cfg: Config, r: Resolver, snap: Snapshot)
    ensures ProcessSupplement(cfg, VeilResolver(r), snap).1 == ProcessSupplement(cfg, r, snap).1
    ensures ProcessSupplement(cfg, VeilResolver(r), snap).0 == VeilResolver(ProcessSupplement(cfg, r, snap).0)
  {
    hide Interpret, Veil, Accepts, Accepted;
    VeilAccepts(r, snap);
    if Accepts(r, snap) {
      VeilInterpret(cfg, Accepted(r, snap), snap, snap.relativeUs);
    }
  }

  // ----- Two runs -----

  function VeilObservation(o: Observation): Observation {
    if o.Reported? then Reported(Veil(o.state)) else o
  }

  function VeilSpine(sp: SpineState): SpineState {
    SpineState(VeilMemory(sp.detector), VeilResolver(sp.resolver))
  }

  lemma VeilFeed(cfg: Config, sp: SpineState, o: Observation)
    ensures Feed(cfg, VeilSpine(sp), VeilObservation(o)).1 == Feed(cfg, sp, o).1
    ensures Feed(cfg, VeilSpine(sp), VeilObservation(o)).0 == VeilSpine(Feed(cfg, sp, o).0)
  {
    hide Detect, ProcessGsi, ProcessSupplement, VeilMemory, VeilResolver, Veil;
    match o
    case Reported(s) =>
      VeilFields(s);
      VeilDetect(sp.detector, s);
      VeilProcessGsi(cfg, sp.resolver, s, Detect(sp.detector, s).1);
    case Counted(snap) => VeilProcessSupplement(cfg, sp.resolver, snap);
  }

  /** Two snapshots that differ only in which other player is observed and in what is said about
      that player. Round kills, too, if they passed the identity gate, as all normalized ones do. */
  predicate SpectatedAlike(a: GameState, b: GameState) {
    && Blot(a) == Blot(b)
    && ((Gated(a) && Gated(b)) || a.roundKills == b.roundKills)
  }

  function Blot(s: GameState): GameState { Veil(s.(roundKills := KillsShown(s))) }

  function KillsShown(s: GameState): Option<int> { if s.localPlayerValid then s.roundKills else None }

  predicate ObservationsAlike(a: Observation, b: Observation) {
    if a.Reported? && b.Reported? then SpectatedAlike(a.state, b.state) else a == b
  }

  lemma AlikeVeiled(a: GameState, b: GameState)
    requires SpectatedAlike(a, b)
    ensures Veil(a) == Veil(b)
  {
    var x, y := a.(roundKills := KillsShown(a)), b.(roundKills := KillsShown(b));
    assert Veil(x) == Veil(y);
    assert Veil(a) == Veil(x).(roundKills := a.roundKills);
    assert Veil(b) == Veil(y).(roundKills := b.roundKills);
    SameWatcher(x, y);
    assert Gated(a) && Gated(b) ==> a.roundKills == b.roundKills by {
      assert Veil(x).roundKills == Veil(y).roundKills;
    }
    hide Veil;
  }

  lemma SameWatcher(a: GameState, b: GameState)
    requires Veil(a) == Veil(b)
    ensures a.localPlayerValid == b.localPlayerValid && a.roundKills == b.roundKills
  {
  }

  lemma ObservationVeiled(a: Observation, b: Observation)
    requires ObservationsAlike(a, b)
    ensures VeilObservation(a) == VeilObservation(b)
  {
    if a.Reported? && b.Reported? {
      AlikeVeiled(a.state, b.state);
    }
    hide Veil, SpectatedAlike;
  }

  /** Two runs that differ only in which other player is observed, and in that player's team,
      activity and counters, emit identical batches and show identical contexts. */
  lemma {:induction false} SpectatorNoninterference(cfg: Config, a: seq<Observation>, b: seq<Observation>, n: nat)
    requires n <= |a| == |b|
    requires forall k :: 0 <= k < |a| ==> ObservationsAlike(a[k], b[k])
    ensures WholeTrace(cfg, a, n) == WholeTrace(cfg, b, n)
    ensures n < |a| ==> BatchAt(cfg, a, n) == BatchAt(cfg, b, n)
    ensures StateAt(cfg, a, n).resolver.context == StateAt(cfg, b, n).resolver.context
    ensures VeilSpine(StateAt(cfg, a, n)) == VeilSpine(StateAt(cfg, b, n))
  {
    hide Feed, VeilSpine, VeilObservation, ObservationsAlike, START;
    ContextUnveiled(StateAt(cfg, a, n));
    ContextUnveiled(StateAt(cfg, b, n));
    if n > 0 {
      SpectatorNoninterference(cfg, a, b, n - 1);
      ObservationVeiled(a[n - 1], b[n - 1]);
      VeilFeed(cfg, StateAt(cfg, a, n - 1), a[n - 1]);
      VeilFeed(cfg, StateAt(cfg, b, n - 1), b[n - 1]);
    }
    if n < |a| {
      ObservationVeiled(a[n], b[n]);
      VeilFeed(cfg, StateAt(cfg, a, n), a[n]);
      VeilFeed(cfg, StateAt(cfg, b, n), b[n]);
    }
  }

  lemma ContextUnveiled(sp: SpineState)
    ensures VeilSpine(sp).resolver.context == sp.resolver.context
  {
  }
}
