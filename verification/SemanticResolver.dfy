/** The semantic resolver: GSI facts and supplementary team counts fused into
    ACE and CLUTCH events and an exported context. */
module SemanticResolution {
  import opened Telemetry
  import opened SupplementaryCounts
  import opened Text

  datatype Config = Config(maxAgeUs: Option<nat>, requireRevision: bool)

  /** The configuration of a default-constructed resolver. */
  const DEFAULT_CONFIG := Config(None, true)

  datatype Lifecycle = Detached | Warmup | FreezeTime | LiveRound | PostRound | GameOverPhase | OtherPhase

  datatype Context = Context(
    lifecycle: Lifecycle,
    matchAttached: bool,
    scoredRoundActive: bool,
    localPlayerAcquired: bool,
    localPlayerAlive: Option<bool>,
    mapName: Option<string>,
    mapMode: Option<string>,
    mapPhase: Option<string>,
    roundPhase: Option<string>,
    supplementAvailable: bool,
    supplementSource: SourceKind,
    supplementUs: nat,
    counts: Perspective,      // local_alive, enemy_alive, local_total, enemy_total
    aliveDelta: Option<int>,
    clutchActive: bool,
    clutchOpponents: Option<int>,
    rosterChanged: bool)

  const NO_COUNTS := Perspective(None, None, None, None)

  const BLANK_CONTEXT := Context(Detached, false, false, false, None, None, None, None, None,
                                 false, Unknown, 0, NO_COUNTS, None, false, None, false)

  datatype Resolver = Resolver(
    context: Context,
    latest: Option<GameState>,
    supplement: Option<Snapshot>,
    team: Option<string>,
    alive: Option<bool>,
    acquired: bool,
    knownStart: bool,
    ended: bool,
    startUs: nat,
    baseTotal: Option<int>,
    baseRevision: Option<nat>,
    churned: bool,
    aceEmitted: bool,
    clutch: bool,
    opponents: Option<int>,
    lastSupplementUs: Option<nat>)

  const INITIAL := Resolver(BLANK_CONTEXT, None, None, None, None, false, false, false, 0,
                            None, None, false, false, false, None, None)

  predicate FreshAt(cfg: Config, snap: Snapshot, us: nat) {
    && snap.relativeUs <= us
    && (cfg.maxAgeUs.Some? ==> us - snap.relativeUs <= cfg.maxAgeUs.value)
  }

  predicate AceMode(mode: Option<string>) {
    mode == Some("competitive") || mode == Some("casual") || mode == Some("retakes")
  }

  function LifecycleOf(s: GameState): Lifecycle {
    if s.mapName.None? then Detached
    else if s.mapPhase == Some("warmup") then Warmup
    else if s.mapPhase == Some("gameover") then GameOverPhase
    else if s.roundPhase == Some("freezetime") then FreezeTime
    else if s.roundPhase == Some("live") then LiveRound
    else if s.roundPhase == Some("over") then PostRound
    else OtherPhase
  }

  function WithLifecycle(r: Resolver, s: GameState): Resolver {
    r.(context := r.context.(
      matchAttached := s.mapName.Some?,
      mapName := s.mapName, mapMode := s.mapMode, mapPhase := s.mapPhase, roundPhase := s.roundPhase,
      localPlayerAcquired := r.acquired,
      localPlayerAlive := r.alive,
      lifecycle := LifecycleOf(s),
      scoredRoundActive := LifecycleOf(s) == LiveRound))
  }

  /** How the local team, when known, sees a snapshot. */
  function Seen(r: Resolver, snap: Snapshot): Option<Perspective> {
    if r.team.Some? then PerspectiveForTeam(snap.teams, r.team.value) else None
  }

  function WithBaseline(cfg: Config, r: Resolver, snap: Snapshot): Resolver {
    var view := Seen(r, snap);
    if !r.knownStart || (cfg.requireRevision && snap.rosterRevision.None?)
       || view.None? || view.value.enemyTotal.None? then r
    else r.(baseTotal := view.value.enemyTotal, baseRevision := snap.rosterRevision)
  }

  function WithoutCounts(r: Resolver): Resolver {
    r.(context := r.context.(supplementAvailable := false, counts := NO_COUNTS, aliveDelta := None))
  }

  /** A round that has just begun, nothing known about it yet. */
  function Begun(r: Resolver, s: GameState): Resolver {
    r.(knownStart := true, ended := false, startUs := s.relativeUs,
       baseTotal := None, baseRevision := None, churned := false, aceEmitted := false,
       clutch := false, opponents := None,
       context := r.context.(rosterChanged := false, clutchActive := false, clutchOpponents := None))
  }

  function WithRoundStart(cfg: Config, r: Resolver, s: GameState): Resolver {
    var begun := Begun(r, s);
    WithoutCounts(
      if begun.supplement.Some? && FreshAt(cfg, begun.supplement.value, s.relativeUs)
      then WithBaseline(cfg, begun, begun.supplement.value) else begun)
  }

  /** The counts a context exports once the local team sees a snapshot as `view`. */
  function CountedContext(c: Context, view: Option<Perspective>, snap: Snapshot): Context {
    var cleared := c.(supplementAvailable := false, counts := NO_COUNTS, aliveDelta := None,
                      supplementSource := snap.source, supplementUs := snap.relativeUs);
    if view.None? then cleared
    else cleared.(
      supplementAvailable := true,
      counts := view.value,
      aliveDelta := if view.value.localAlive.Some? && view.value.enemyAlive.Some?
                    then Some(view.value.localAlive.value - view.value.enemyAlive.value) else None)
  }

  function WithCounts(r: Resolver, snap: Snapshot): Resolver {
    r.(context := CountedContext(r.context, Seen(r, snap), snap))
  }

  /** Does a snapshot contradict the round baseline, as the local team sees it now? */
  predicate Contradicts(r: Resolver, snap: Snapshot) {
    var view := Seen(r, snap);
    && view.Some?
    && (|| (view.value.enemyTotal.Some? && view.value.enemyTotal != r.baseTotal)
        || (r.baseRevision.Some? && snap.rosterRevision.Some? && snap.rosterRevision != r.baseRevision))
  }

  function WithRoster(r: Resolver, snap: Snapshot): Resolver {
    if !r.knownStart || r.baseTotal.None? || Seen(r, snap).None? then r
    else
      var churned := r.churned || Contradicts(r, snap);
      r.(churned := churned, context := r.context.(rosterChanged := churned))
  }

  function SemanticEvent(kind: EventKind, latest: Option<GameState>, us: nat): Event {
    Event(kind, Deterministic, {Gsi, SupplementaryState},
          if latest.Some? then latest.value.sequence else 0, us, None, None, "", "")
  }

  function WithClutch(r: Resolver, active: bool, opponents: Option<int>): Resolver {
    r.(clutch := active, opponents := opponents,
       context := r.context.(clutchActive := active, clutchOpponents := opponents))
  }

  function ClutchEnd(r: Resolver, us: nat): (Resolver, seq<Event>) {
    if !r.clutch then (r, [])
    else (WithClutch(r, false, None), [SemanticEvent(ClutchEnded, r.latest, us).(value := r.opponents)])
  }

  /** The clutch condition on the evidence at hand. */
  predicate ClutchNow(r: Resolver, view: Perspective) {
    && r.latest.Some? && r.latest.value.roundPhase == Some("live")
    && !r.ended
    && r.alive == Some(true)
    && view.localAlive == Some(1)
    && view.enemyAlive.Some? && view.enemyAlive.value >= 1
  }

  /** May alive counts be used at all: a team, a known start and current-round evidence. */
  predicate ClutchEvaluable(r: Resolver) {
    && r.latest.Some? && r.supplement.Some? && r.team.Some?
    && r.knownStart && r.supplement.value.relativeUs >= r.startUs
  }

  function EvaluateClutch(r: Resolver, us: nat): (Resolver, seq<Event>) {
    if !ClutchEvaluable(r) then (r, [])
    else
      var view := Seen(r, r.supplement.value);
      if view.None? || !ClutchNow(r, view.value) then ClutchEnd(r, us)
      else
        var enemies := view.value.enemyAlive;
        (WithClutch(r, true, enemies),
         if !r.clutch then [SemanticEvent(ClutchStarted, r.latest, us).(value := enemies)]
         else if r.opponents != enemies then
           [SemanticEvent(ClutchUpdated, r.latest, us).(
              before := if r.opponents.Some? then IntText(r.opponents.value) else "",
              after := IntText(enemies.value), value := enemies)]
         else [])
  }

  /** All the evidence that a confirmed ace needs. */
  predicate AceProven(cfg: Config, r: Resolver) {
    && !r.aceEmitted && r.knownStart
    && r.latest.Some? && r.supplement.Some? && r.baseTotal.Some?
    && AceMode(r.latest.value.mapMode)
    && r.supplement.value.relativeUs >= r.startUs
    && !r.churned
    && (cfg.requireRevision ==> r.baseRevision.Some?)
    && r.latest.value.roundKills == r.baseTotal
    && var view := Seen(r, r.supplement.value);
       && view.Some?
       && view.value.enemyAlive == Some(0)
       && view.value.enemyTotal == r.baseTotal
       && (r.baseRevision.Some? ==> r.supplement.value.rosterRevision == r.baseRevision)
  }

  function EvaluateAce(cfg: Config, r: Resolver, us: nat): (Resolver, seq<Event>) {
    if AceProven(cfg, r)
    then (r.(aceEmitted := true), [SemanticEvent(Ace, r.latest, us).(value := r.latest.value.roundKills)])
    else (r, [])
  }

  function Observe(r: Resolver, snap: Snapshot): Resolver {
    WithRoster(WithCounts(r, snap), snap)
  }

  /** Context, roster, clutch and ace from one accepted snapshot. */
  function Interpret(cfg: Config, r: Resolver, snap: Snapshot, us: nat): (Resolver, seq<Event>) {
    var (r1, clutch) := EvaluateClutch(Observe(r, snap), us);
    var (r2, ace) := EvaluateAce(cfg, r1, us);
    (r2, clutch + ace)
  }

  /** The local player as this packet and its facts describe it. */
  function WithLocalPlayer(r: Resolver, s: GameState, facts: seq<Event>): Resolver {
    r.(latest := Some(s),
       acquired := r.acquired || Has(facts, LocalPlayerAcquired) || s.localPlayerValid,
       team := if s.localPlayerValid && s.playerTeam.Some? then s.playerTeam else r.team,
       alive := if Has(facts, PlayerRespawned) then Some(true)
                else if Has(facts, PlayerDied) then Some(false)
                else if s.localPlayerValid && s.health.Some? then Some(s.health.value > 0)
                else r.alive)
  }

  /** Everything before the evidence is evaluated. */
  function Prepare(cfg: Config, r: Resolver, s: GameState, facts: seq<Event>): Resolver {
    var r0 := if Has(facts, MatchEntered) then INITIAL else r;
    var r1 := WithLifecycle(WithLocalPlayer(r0, s, facts), s);
    if Has(facts, RoundStarted) then WithRoundStart(cfg, r1, s) else r1
  }

  predicate CurrentRoundSupplement(cfg: Config, r: Resolver, us: nat) {
    && r.supplement.Some? && FreshAt(cfg, r.supplement.value, us)
    && (r.knownStart ==> r.supplement.value.relativeUs >= r.startUs)
  }

  function Evaluate(cfg: Config, r: Resolver, us: nat): (Resolver, seq<Event>) {
    if CurrentRoundSupplement(cfg, r, us) then Interpret(cfg, r, r.supplement.value, us)
    else (WithoutCounts(r), [])
  }

  predicate ClosesRound(facts: seq<Event>) {
    Has(facts, RoundEnded) || Has(facts, GameOver) || Has(facts, MatchLeft)
  }

  function Close(r: Resolver, us: nat, facts: seq<Event>): (Resolver, seq<Event>) {
    if !ClosesRound(facts) then (r, [])
    else
      var (r1, ended) := ClutchEnd(r, us);
      (if Has(facts, MatchLeft) then INITIAL else r1.(ended := true), ended)
  }

  function ProcessGsi(cfg: Config, r: Resolver, s: GameState, facts: seq<Event>): (Resolver, seq<Event>) {
    var (r1, evaluated) := Evaluate(cfg, Prepare(cfg, r, s, facts), s.relativeUs);
    var (r2, closing) := Close(r1, s.relativeUs, facts);
    (r2, evaluated + closing)
  }

  /** Neither invalid, nor older than accepted evidence, nor older than processed GSI. */
  predicate Accepts(r: Resolver, snap: Snapshot) {
    && ValidTeamCounts(snap.teams)
    && (r.lastSupplementUs.Some? ==> r.lastSupplementUs.value <= snap.relativeUs)
    && (r.latest.Some? ==> r.latest.value.relativeUs <= snap.relativeUs)
  }

  function Accepted(r: Resolver, snap: Snapshot): Resolver {
    r.(supplement := Some(snap), lastSupplementUs := Some(snap.relativeUs))
  }

  function ProcessSupplement(cfg: Config, r: Resolver, snap: Snapshot): (Resolver, seq<Event>) {
    if !Accepts(r, snap) then (r, [])
    else
      var r1 := Accepted(r, snap);
      if r1.latest.None? then (r1, []) else Interpret(cfg, r1, snap, snap.relativeUs)
  }

  // ----- The resolver object -----

  class SemanticResolver {
    const config: Config
    var context: Context
    var latestState: Option<GameState>
    var latestSupplement: Option<Snapshot>
    var localTeam: Option<string>
    var localPlayerAlive: Option<bool>
    var localPlayerAcquired: bool
    var roundHasKnownStart: bool
    var roundEnded: bool
    var roundStartUs: nat
    var initialEnemyTotal: Option<int>
    var initialRosterRevision: Option<nat>
    var rosterChangedThisRound: bool
    var aceEmittedThisRound: bool
    var clutchActive: bool
    var lastClutchEnemyAlive: Option<int>
    var lastSupplementUs: Option<nat>

    ghost function State(): Resolver
      reads this
    {
      Resolver(context, latestState, latestSupplement, localTeam, localPlayerAlive, localPlayerAcquired,
               roundHasKnownStart, roundEnded, roundStartUs, initialEnemyTotal, initialRosterRevision,
               rosterChangedThisRound, aceEmittedThisRound, clutchActive, lastClutchEnemyAlive, lastSupplementUs)
    }

    constructor (config: Config)
      ensures this.config == config && State() == INITIAL
    {
      this.config := config;
      context, latestState, latestSupplement, localTeam := BLANK_CONTEXT, None, None, None;
      localPlayerAlive, localPlayerAcquired, roundHasKnownStart, roundEnded := None, false, false, false;
      roundStartUs, initialEnemyTotal, initialRosterRevision := 0, None, None;
      rosterChangedThisRound, aceEmittedThisRound := false, false;
      clutchActive, lastClutchEnemyAlive, lastSupplementUs := false, None, None;
    }

    method ResetRound()
      modifies this`roundHasKnownStart, this`roundEnded, this`roundStartUs, this`initialEnemyTotal,
               this`initialRosterRevision, this`rosterChangedThisRound, this`aceEmittedThisRound
      ensures !roundHasKnownStart && !roundEnded && roundStartUs == 0
      ensures initialEnemyTotal.None? && initialRosterRevision.None?
      ensures !rosterChangedThisRound && !aceEmittedThisRound
    {
      roundHasKnownStart, roundEnded, roundStartUs := false, false, 0;
      initialEnemyTotal, initialRosterRevision := None, None;
      rosterChangedThisRound, aceEmittedThisRound := false, false;
    }

    method Reset()
      modifies this
      ensures State() == INITIAL
    {
      context := BLANK_CONTEXT;
      latestState, latestSupplement, localTeam := None, None, None;
      localPlayerAlive, localPlayerAcquired := None, false;
      clutchActive, lastClutchEnemyAlive, lastSupplementUs := false, None, None;
      ResetRound();
    }

    method UpdateLifecycleContext(state: GameState)
      modifies this`context
      ensures context == WithLifecycle(old(State()), state).context
    {
      var c := context.(matchAttached := state.mapName.Some?, mapName := state.mapName, mapMode := state.mapMode,
                        mapPhase := state.mapPhase, roundPhase := state.roundPhase,
                        localPlayerAcquired := localPlayerAcquired, localPlayerAlive := localPlayerAlive);
      var phase := OtherPhase;
      if state.mapName.None? {
        phase := Detached;
      } else if state.mapPhase == Some("warmup") {
        phase := Warmup;
      } else if state.mapPhase == Some("gameover") {
        phase := GameOverPhase;
      } else if state.roundPhase == Some("freezetime") {
        phase := FreezeTime;
      } else if state.roundPhase == Some("live") {
        phase := LiveRound;
      } else if state.roundPhase == Some("over") {
        phase := PostRound;
      }
      context := c.(lifecycle := phase, scoredRoundActive := phase == LiveRound);
    }

    method ClearCounts()
      modifies this`context
      ensures State() == WithoutCounts(old(State()))
    {
      context := context.(supplementAvailable := false, counts := NO_COUNTS, aliveDelta := None);
    }

    method EstablishRoundBaseline(snapshot: Snapshot)
      modifies this`initialEnemyTotal, this`initialRosterRevision
      ensures State() == WithBaseline(config, old(State()), snapshot)
    {
      if !roundHasKnownStart || localTeam.None? {
        return;
      }
      if config.requireRevision && snapshot.rosterRevision.None? {
        return;
      }
      var perspective := PerspectiveForTeam(snapshot.teams, localTeam.value);
      if perspective.None? || perspective.value.enemyTotal.None? {
        return;
      }
      initialEnemyTotal := perspective.value.enemyTotal;
      initialRosterRevision := snapshot.rosterRevision;
    }

    method ForgetRound(state: GameState)
      modifies this`context, this`roundHasKnownStart, this`roundEnded, this`roundStartUs, this`initialEnemyTotal,
               this`initialRosterRevision, this`rosterChangedThisRound, this`aceEmittedThisRound,
               this`clutchActive, this`lastClutchEnemyAlive
      ensures State() == Begun(old(State()), state)
    {
      ResetRound();
      roundHasKnownStart, roundStartUs := true, state.relativeUs;
      clutchActive, lastClutchEnemyAlive := false, None;
      context := context.(rosterChanged := false, clutchActive := false, clutchOpponents := None);
    }

    method BeginRound(state: GameState)
      modifies this
      ensures State() == WithRoundStart(config, old(State()), state)
    {
      ForgetRound(state);
      if latestSupplement.Some? && FreshAt(config, latestSupplement.value, state.relativeUs) {
        EstablishRoundBaseline(latestSupplement.value);
      }
      ClearCounts();
    }

    method UpdateContext(snapshot: Snapshot)
      modifies this`context
      ensures State() == WithCounts(old(State()), snapshot)
    {
      ClearCounts();
      context := context.(supplementSource := snapshot.source, supplementUs := snapshot.relativeUs);
      if localTeam.None? {
        return;
      }
      var perspective := PerspectiveForTeam(snapshot.teams, localTeam.value);
      if perspective.None? {
        return;
      }
      context := context.(supplementAvailable := true, counts := perspective.value);
      if perspective.value.localAlive.Some? && perspective.value.enemyAlive.Some? {
        context := context.(aliveDelta :=
          Some(perspective.value.localAlive.value - perspective.value.enemyAlive.value));
      }
    }

    method ObserveRoster(snapshot: Snapshot)
      modifies this`rosterChangedThisRound, this`context
      ensures State() == WithRoster(old(State()), snapshot)
    {
      if !roundHasKnownStart || initialEnemyTotal.None? || localTeam.None? {
        return;
      }
      var perspective := PerspectiveForTeam(snapshot.teams, localTeam.value);
      if perspective.None? {
        return;
      }
      if perspective.value.enemyTotal.Some? && perspective.value.enemyTotal.value != initialEnemyTotal.value {
        rosterChangedThisRound := true;
      }
      if initialRosterRevision.Some? && snapshot.rosterRevision.Some?
         && snapshot.rosterRevision.value != initialRosterRevision.value {
        rosterChangedThisRound := true;
      }
      context := context.(rosterChanged := rosterChangedThisRound);
    }

    method EndClutch(us: nat) returns (events: seq<Event>)
      modifies this`clutchActive, this`lastClutchEnemyAlive, this`context
      ensures State() == ClutchEnd(old(State()), us).0
      ensures events == ClutchEnd(old(State()), us).1
    {
      if !clutchActive {
        return [];
      }
      var event := SemanticEvent(ClutchEnded, latestState, us);
      if lastClutchEnemyAlive.Some? {
        event := event.(value := lastClutchEnemyAlive);
      }
      clutchActive, lastClutchEnemyAlive := false, None;
      context := context.(clutchActive := false, clutchOpponents := None);
      events := [event];
    }

    method EvaluateClutchState(us: nat) returns (events: seq<Event>)
      modifies this`clutchActive, this`lastClutchEnemyAlive, this`context
      ensures State() == EvaluateClutch(old(State()), us).0
      ensures events == EvaluateClutch(old(State()), us).1
    {
      events := [];
      if latestState.None? || latestSupplement.None? || localTeam.None? {
        return;
      }
      if !roundHasKnownStart || latestSupplement.value.relativeUs < roundStartUs {
        return;
      }
      var perspective := PerspectiveForTeam(latestSupplement.value.teams, localTeam.value);
      if perspective.None? || perspective.value.localAlive.None? || perspective.value.enemyAlive.None? {
        events := EndClutch(us);
        return;
      }
      var enemies := perspective.value.enemyAlive;
      var liveRound := latestState.value.roundPhase == Some("live");
      var localIsAlive := if localPlayerAlive.Some? then localPlayerAlive.value else false;
      var clutchNow := liveRound && !roundEnded && localIsAlive
        && perspective.value.localAlive.value == 1 && enemies.value >= 1;
      if !clutchNow {
        events := EndClutch(us);
        return;
      }
      if !clutchActive {
        events := [SemanticEvent(ClutchStarted, latestState, us).(value := enemies)];
        clutchActive, lastClutchEnemyAlive := true, enemies;
      } else if lastClutchEnemyAlive.None? || lastClutchEnemyAlive.value != enemies.value {
        var event := SemanticEvent(ClutchUpdated, latestState, us);
        if lastClutchEnemyAlive.Some? {
          event := event.(before := IntText(lastClutchEnemyAlive.value));
        }
        events := [event.(after := IntText(enemies.value), value := enemies)];
        lastClutchEnemyAlive := enemies;
      }
      context := context.(clutchActive := clutchActive, clutchOpponents := lastClutchEnemyAlive);
    }

    method EvaluateAceState(us: nat) returns (events: seq<Event>)
      modifies this`aceEmittedThisRound
      ensures State() == EvaluateAce(config, old(State()), us).0
      ensures events == EvaluateAce(config, old(State()), us).1
    {
      events := [];
      if aceEmittedThisRound || !roundHasKnownStart || latestState.None? || latestSupplement.None? || localTeam.None?
         || initialEnemyTotal.None? || !AceMode(latestState.value.mapMode) {
        return;
      }
      if latestSupplement.value.relativeUs < roundStartUs {
        return;
      }
      if rosterChangedThisRound {
        return;
      }
      if config.requireRevision && initialRosterRevision.None? {
        return;
      }
      if latestState.value.roundKills.None? || latestState.value.roundKills.value != initialEnemyTotal.value {
        return;
      }
      var perspective := PerspectiveForTeam(latestSupplement.value.teams, localTeam.value);
      if perspective.None? || perspective.value.enemyAlive.None? || perspective.value.enemyTotal.None? {
        return;
      }
      if perspective.value.enemyAlive.value != 0 || perspective.value.enemyTotal.value != initialEnemyTotal.value {
        return;
      }
      if initialRosterRevision.Some? {
        if latestSupplement.value.rosterRevision.None?
           || latestSupplement.value.rosterRevision.value != initialRosterRevision.value {
          return;
        }
      }
      events := [SemanticEvent(Ace, latestState, us).(value := latestState.value.roundKills)];
      aceEmittedThisRound := true;
    }

    method InterpretSnapshot(snapshot: Snapshot, us: nat) returns (events: seq<Event>)
      modifies this
      ensures State() == Interpret(config, old(State()), snapshot, us).0
      ensures events == Interpret(config, old(State()), snapshot, us).1
    {
      UpdateContext(snapshot);
      ObserveRoster(snapshot);
      var clutch := EvaluateClutchState(us);
      var ace := EvaluateAceState(us);
      events := clutch + ace;
    }

    method ObserveLocalPlayer(state: GameState, facts: seq<Event>)
      modifies this`latestState, this`localPlayerAcquired, this`localTeam, this`localPlayerAlive
      ensures State() == WithLocalPlayer(old(State()), state, facts)
    {
      hide Has;
      latestState := Some(state);
      if Has(facts, LocalPlayerAcquired) || state.localPlayerValid {
        localPlayerAcquired := true;
      }
      if state.localPlayerValid && state.playerTeam.Some? {
        localTeam := state.playerTeam;
      }
      if state.localPlayerValid && state.health.Some? {
        localPlayerAlive := Some(state.health.value > 0);
      }
      if Has(facts, PlayerDied) {
        localPlayerAlive := Some(false);
      }
      if Has(facts, PlayerRespawned) {
        localPlayerAlive := Some(true);
      }
    }

    /** The first half of `process_gsi`: what the packet and its facts establish. */
    method Absorb(state: GameState, facts: seq<Event>)
      modifies this
      ensures State() == Prepare(config, old(State()), state, facts)
    {
      hide WithLocalPlayer, WithRoundStart, LifecycleOf;
      if Has(facts, MatchEntered) {
        Reset();
      }
      ObserveLocalPlayer(state, facts);
      UpdateLifecycleContext(state);
      if Has(facts, RoundStarted) {
        BeginRound(state);
      }
    }

    /** The latest snapshot counts only while fresh and of the current round. */
    method EvaluateEvidence(us: nat) returns (events: seq<Event>)
      modifies this
      ensures State() == Evaluate(config, old(State()), us).0
      ensures events == Evaluate(config, old(State()), us).1
    {
      hide Interpret, WithoutCounts;
      var current := latestSupplement.Some? && FreshAt(config, latestSupplement.value, us)
        && (!roundHasKnownStart || latestSupplement.value.relativeUs >= roundStartUs);
      if current {
        events := InterpretSnapshot(latestSupplement.value, us);
      } else {
        events := [];
        ClearCounts();
      }
    }

    method CloseEvidence(us: nat, facts: seq<Event>) returns (events: seq<Event>)
      modifies this
      ensures State() == Close(old(State()), us, facts).0
      ensures events == Close(old(State()), us, facts).1
    {
      hide Has, ClutchEnd;
      events := [];
      if Has(facts, RoundEnded) || Has(facts, GameOver) || Has(facts, MatchLeft) {
        events := EndClutch(us);
        roundEnded := true;
      }
      if Has(facts, MatchLeft) {
        Reset();
      }
    }

    method ProcessGsiState(state: GameState, facts: seq<Event>) returns (events: seq<Event>)
      modifies this
      ensures State() == ProcessGsi(config, old(State()), state, facts).0
      ensures events == ProcessGsi(config, old(State()), state, facts).1
    {
      hide Prepare, Evaluate, Close;
      Absorb(state, facts);
      events := EvaluateEvidence(state.relativeUs);
      var closing := CloseEvidence(state.relativeUs, facts);
      events := events + closing;
    }

    method ProcessSupplementary(snapshot: Snapshot) returns (events: seq<Event>)
      modifies this
      ensures State() == ProcessSupplement(config, old(State()), snapshot).0
      ensures events == ProcessSupplement(config, old(State()), snapshot).1
    {
      hide Interpret;
      events := [];
      if !ValidTeamCounts(snapshot.teams) {
        return;
      }
      if lastSupplementUs.Some? && snapshot.relativeUs < lastSupplementUs.value {
        return;
      }
      if latestState.Some? && snapshot.relativeUs < latestState.value.relativeUs {
        return;
      }
      latestSupplement := Some(snapshot);
      lastSupplementUs := Some(snapshot.relativeUs);
      if latestState.None? {
        return;
      }
      events := InterpretSnapshot(snapshot, snapshot.relativeUs);
    }
  }
}
