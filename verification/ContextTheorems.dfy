/** The exported context is, after every input, exactly what the latest packet and the latest
    supplement say. */
module ContextTheorems {
  import opened Telemetry
  import opened SupplementaryCounts
  import opened SemanticResolution
  import opened ResolverTheorems

  /** Which phase a packet announces: the map's own phases come before the round's. */
  predicate Announces(s: GameState, phase: Lifecycle) {
    var attached := s.mapName.Some?;
    var mapRules := s.mapPhase == Some("warmup") || s.mapPhase == Some("gameover");
    match phase
    case Detached => !attached
    case Warmup => attached && s.mapPhase == Some("warmup")
    case GameOverPhase => attached && s.mapPhase == Some("gameover")
    case FreezeTime => attached && !mapRules && s.roundPhase == Some("freezetime")
    case LiveRound => attached && !mapRules && s.roundPhase == Some("live")
    case PostRound => attached && !mapRules && s.roundPhase == Some("over")
    case OtherPhase => attached && !mapRules && s.roundPhase !in {Some("freezetime"), Some("live"), Some("over")}
  }

  lemma LifecycleExactly(s: GameState, phase: Lifecycle)
    ensures LifecycleOf(s) == phase <==> Announces(s, phase)
  {
    assert "warmup"[0] == 'w' && "gameover"[0] == 'g';
    assert "freezetime"[0] == 'f' && "live"[0] == 'l' && "over"[0] == 'o';
  }

  /** The lifecycle fields are those of the latest packet. */
  predicate ShowsPacket(r: Resolver) {
    r.latest.Some? ==>
      var c, s := r.context, r.latest.value;
      && c.matchAttached == s.mapName.Some? && c.mapName == s.mapName && c.mapMode == s.mapMode
      && c.mapPhase == s.mapPhase && c.roundPhase == s.roundPhase
      && Announces(s, c.lifecycle) && c.scoredRoundActive == Announces(s, LiveRound)
      && c.localPlayerAlive == r.alive && c.localPlayerAcquired == r.acquired
  }

  /** Counts are shown together with their source, time and difference, or not at all: the local
      team's and the enemy's, each alive count within its own total. */
  predicate ShowsCounts(r: Resolver) {
    var c := r.context;
    if !c.supplementAvailable then
      && c.counts.localAlive.None? && c.counts.enemyAlive.None? && c.counts.localTotal.None? && c.counts.enemyTotal.None?
      && c.aliveDelta.None?
    else
      && r.latest.Some? && r.supplement.Some? && Playing(r.team)
      && c.counts.localAlive == OwnAlive(r.team.value, r.supplement.value.teams)
      && c.counts.localTotal == OwnTotal(r.team.value, r.supplement.value.teams)
      && c.counts.enemyAlive == EnemyAlive(r.team.value, r.supplement.value.teams)
      && c.counts.enemyTotal == EnemyTotal(r.team.value, r.supplement.value.teams)
      && WithinTotal(c.counts.localAlive, c.counts.localTotal) && WithinTotal(c.counts.enemyAlive, c.counts.enemyTotal)
      && c.supplementUs == r.supplement.value.relativeUs && c.supplementSource == r.supplement.value.source
      && (c.aliveDelta.Some? <==> c.counts.localAlive.Some? && c.counts.enemyAlive.Some?)
      && (c.aliveDelta.Some? ==> c.counts.localAlive.value == c.counts.enemyAlive.value + c.aliveDelta.value)
  }

  predicate Shows(r: Resolver) { ShowsPacket(r) && ShowsCounts(r) }

  lemma LifecycleShows(r: Resolver, s: GameState)
    requires r.latest == Some(s)
    ensures ShowsPacket(WithLifecycle(r, s))
  {
    LifecycleExactly(s, LifecycleOf(s));
    LifecycleExactly(s, LiveRound);
    hide LifecycleOf, Announces;
  }

  lemma PrepareShows(cfg: Config, r: Resolver, s: GameState, facts: seq<Event>)
    ensures ShowsPacket(Prepare(cfg, r, s, facts))
  {
    hide Has, LifecycleOf, Announces, WithRoundStart, WithLifecycle, ShowsPacket, INITIAL;
    var local := WithLocalPlayer(if Has(facts, MatchEntered) then INITIAL else r, s, facts);
    LifecycleShows(local, s);
    RoundStartFrame(cfg, WithLifecycle(local, s), s);
  }

  lemma RoundStartFrame(cfg: Config, r: Resolver, s: GameState)
    requires ShowsPacket(r)
    ensures ShowsPacket(WithRoundStart(cfg, r, s))
  {
    hide Seen, Announces;
  }

  /** Evaluating a snapshot shows it, whatever was shown before. */
  lemma ObserveShows(r: Resolver, snap: Snapshot)
    requires r.supplement == Some(snap) && r.latest.Some? && ShowsPacket(r)
    ensures Shows(Observe(r, snap))
  {
    CountsShow(r, snap);
    RosterShows(WithCounts(r, snap), snap);
    hide WithCounts, WithRoster, Shows;
  }

  lemma CountsShow(r: Resolver, snap: Snapshot)
    requires r.supplement == Some(snap) && r.latest.Some? && ShowsPacket(r)
    ensures Shows(WithCounts(r, snap))
  {
    if r.team.Some? {
      PerspectiveExactly(snap.teams, r.team.value);
    }
    hide PerspectiveForTeam, ValidTeamCounts, Announces, OwnAlive, OwnTotal, EnemyAlive, EnemyTotal, WithinTotal;
  }

  lemma RosterShows(r: Resolver, snap: Snapshot)
    requires Shows(r)
    ensures Shows(WithRoster(r, snap))
  {
    hide Seen, Contradicts, Announces, OwnAlive, OwnTotal, EnemyAlive, EnemyTotal, WithinTotal;
  }

  lemma InterpretShows(cfg: Config, r: Resolver, snap: Snapshot, us: nat)
    requires r.supplement == Some(snap) && r.latest.Some? && ShowsPacket(r)
    ensures Shows(Interpret(cfg, r, snap, us).0)
  {
    hide Shows, Observe, EvaluateClutch, EvaluateAce, AceProven, ShowsPacket, WithClutch;
    var o := Observe(r, snap);
    ObserveShows(r, snap);
    var k := EvaluateClutch(o, us).0;
    ClutchFrame(o, us);
    EvaluateAceInv(cfg, k, us);
    FrameShows(o, k.clutch, k.opponents);
    AceFrame(k, k.aceEmitted || AceProven(cfg, k));
  }

  lemma FrameShows(r: Resolver, clutch: bool, opponents: Option<int>)
    requires Shows(r)
    ensures Shows(WithClutch(r, clutch, opponents))
  {
    hide Announces, OwnAlive, OwnTotal, EnemyAlive, EnemyTotal, WithinTotal;
  }

  lemma AceFrame(r: Resolver, emitted: bool)
    requires Shows(r)
    ensures Shows(r.(aceEmitted := emitted))
  {
    hide Announces, OwnAlive, OwnTotal, EnemyAlive, EnemyTotal, WithinTotal;
  }

  lemma EvaluateShows(cfg: Config, r: Resolver, us: nat)
    requires r.latest.Some? && ShowsPacket(r)
    ensures Shows(Evaluate(cfg, r, us).0)
  {
    if CurrentRoundSupplement(cfg, r, us) {
      InterpretShows(cfg, r, r.supplement.value, us);
    }
    hide Interpret, Announces, OwnAlive, OwnTotal, EnemyAlive, EnemyTotal, WithinTotal;
  }

  lemma CloseShows(r: Resolver, us: nat, facts: seq<Event>)
    requires Shows(r)
    ensures Shows(Close(r, us, facts).0)
  {
    hide Has, ClosesRound, Announces, OwnAlive, OwnTotal, EnemyAlive, EnemyTotal, WithinTotal;
  }

  lemma AcceptShows(cfg: Config, r: Resolver, snap: Snapshot)
    requires Shows(r)
    ensures Shows(ProcessSupplement(cfg, r, snap).0)
  {
    var a := Accepted(r, snap);
    assert ShowsPacket(a) by { hide Announces; }
    hide Interpret, Announces, OwnAlive, OwnTotal, EnemyAlive, EnemyTotal, WithinTotal, Accepts;
    if Accepts(r, snap) && a.latest.Some? {
      InterpretShows(cfg, a, snap, snap.relativeUs);
    }
  }

  lemma StepShows(cfg: Config, r: Resolver, i: Input)
    requires Inv(cfg, r) && Shows(r)
    ensures Shows(Step(cfg, r, i).0)
  {
    hide Inv, Shows, Prepare, Evaluate, Close, ProcessSupplement;
    match i
    case Packet(s, facts) =>
      var p := Prepare(cfg, r, s, facts);
      PrepareInv(cfg, r, s, facts);
      PrepareShows(cfg, r, s, facts);
      EvaluateShows(cfg, p, s.relativeUs);
      CloseShows(Evaluate(cfg, p, s.relativeUs).0, s.relativeUs, facts);
    case Counts(snap) => AcceptShows(cfg, r, snap);
  }

  /** A new resolver, and one after a match was left, knows nothing at all. */
  lemma InitialBlank()
    ensures
      var r, c := INITIAL, INITIAL.context;
      && r.latest.None? && r.supplement.None? && r.team.None? && r.alive.None? && !r.acquired
      && !r.knownStart && !r.ended && r.startUs == 0 && r.baseTotal.None? && r.baseRevision.None?
      && !r.churned && !r.aceEmitted && !r.clutch && r.opponents.None? && r.lastSupplementUs.None?
      && c.lifecycle == Detached && !c.matchAttached && !c.scoredRoundActive && !c.localPlayerAcquired
      && c.localPlayerAlive.None? && c.mapName.None? && c.mapMode.None? && c.mapPhase.None? && c.roundPhase.None?
      && !c.supplementAvailable && c.supplementSource == Unknown && c.supplementUs == 0
      && !c.clutchActive && c.clutchOpponents.None? && !c.rosterChanged
  {
  }

  lemma InitialShows()
    ensures Shows(INITIAL)
  {
  }

  /** In every history, unconditionally. */
  lemma {:induction false} ContextShowsEvidence(cfg: Config, ins: seq<Input>, n: nat)
    requires n <= |ins|
    ensures Shows(Before(cfg, ins, n))
  {
    hide Step, Shows, Inv, INITIAL;
    if n == 0 {
      InitialShows();
    } else {
      ContextShowsEvidence(cfg, ins, n - 1);
      ReachableInv(cfg, ins, n - 1);
      StepShows(cfg, Before(cfg, ins, n - 1), ins[n - 1]);
    }
  }

  // ----- When counts are on show -----

  lemma ObserveAvailable(r: Resolver, snap: Snapshot)
    ensures
      var c := Observe(r, snap).context;
      && c.supplementAvailable == Seen(r, snap).Some?
      && c.localPlayerAlive == r.context.localPlayerAlive && c.localPlayerAcquired == r.context.localPlayerAcquired
  {
    hide Seen, Contradicts;
  }

  lemma SeenExactly(r: Resolver, snap: Snapshot)
    requires ValidTeamCounts(snap.teams)
    ensures Seen(r, snap).Some? == Playing(r.team)
  {
    if r.team.Some? {
      PerspectiveExactly(snap.teams, r.team.value);
    }
    hide PerspectiveForTeam, ValidTeamCounts;
  }

  /** What the clutch and the ace leave alone. */
  predicate SamePlayer(c: Context, d: Context) {
    c.supplementAvailable == d.supplementAvailable && c.localPlayerAlive == d.localPlayerAlive
    && c.localPlayerAcquired == d.localPlayerAcquired
  }

  lemma EvaluationKeeps(cfg: Config, r: Resolver, us: nat)
    ensures SamePlayer(EvaluateClutch(r, us).0.context, r.context)
    ensures EvaluateAce(cfg, r, us).0.context == r.context
  {
    hide Seen, AceProven;
  }

  lemma InterpretAvailable(cfg: Config, r: Resolver, snap: Snapshot, us: nat)
    requires ValidTeamCounts(snap.teams)
    ensures
      var c := Interpret(cfg, r, snap, us).0.context;
      && c.supplementAvailable == Playing(r.team)
      && c.localPlayerAlive == r.context.localPlayerAlive && c.localPlayerAcquired == r.context.localPlayerAcquired
  {
    hide Observe, EvaluateAce, EvaluateClutch, Seen, Playing, ValidTeamCounts;
    ObserveAvailable(r, snap);
    SeenExactly(r, snap);
    var k := EvaluateClutch(Observe(r, snap), us).0;
    EvaluationKeeps(cfg, Observe(r, snap), us);
    EvaluationKeeps(cfg, k, us);
  }

  lemma CloseAvailable(r: Resolver, us: nat, facts: seq<Event>)
    ensures
      var c, d := Close(r, us, facts).0.context, r.context;
      if Has(facts, MatchLeft) then c == INITIAL.context
      else
        c.supplementAvailable == d.supplementAvailable && c.localPlayerAlive == d.localPlayerAlive
        && c.localPlayerAcquired == d.localPlayerAcquired
  {
    hide Has;
  }

  lemma PreparedPlayer(cfg: Config, r: Resolver, s: GameState, facts: seq<Event>)
    requires Inv(cfg, r)
    ensures
      var p := Prepare(cfg, r, s, facts);
      var known := if Has(facts, MatchEntered) then INITIAL else r;
      && p.context.localPlayerAlive == AliveAfter(known, s, facts) && p.team == TeamAfter(known, s)
      && p.context.localPlayerAcquired == (known.acquired || Has(facts, LocalPlayerAcquired) || s.localPlayerValid)
      && (CurrentRoundSupplement(cfg, p, s.relativeUs) <==> !Has(facts, MatchEntered) && !Skips(cfg, r, s, facts))
  {
    PrepareFields(cfg, r, s, facts);
    if Has(facts, MatchEntered) {
      PacketEntered(cfg, r, s, facts);
    } else {
      PreparedClutch(cfg, r, s, facts);
    }
    hide Has, LifecycleOf, Seen, AliveAfter, TeamAfter, Skips, CurrentRoundSupplement, INITIAL, Inv;
  }

  lemma EvaluateAvailable(cfg: Config, r: Resolver, us: nat)
    requires r.supplement.Some? ==> ValidTeamCounts(r.supplement.value.teams)
    ensures
      var c, d := Evaluate(cfg, r, us).0.context, r.context;
      && c.supplementAvailable == (CurrentRoundSupplement(cfg, r, us) && Playing(r.team))
      && c.localPlayerAlive == d.localPlayerAlive && c.localPlayerAcquired == d.localPlayerAcquired
  {
    hide Playing, ValidTeamCounts;
    if CurrentRoundSupplement(cfg, r, us) {
      var snap := r.supplement.value;
      InterpretAvailable(cfg, r, snap, us);
    }
    hide Interpret, CurrentRoundSupplement;
  }

  /** After a packet the context shows counts exactly when the evidence was evaluated and the local
      team is one of the two; the local player is alive by the latest fact or reading, and
      acquired once shown. A packet that leaves the match blanks it. */
  lemma PacketContextExactly(cfg: Config, r: Resolver, s: GameState, facts: seq<Event>)
    requires Inv(cfg, r)
    ensures
      var c := ProcessGsi(cfg, r, s, facts).0.context;
      var known := if Has(facts, MatchEntered) then INITIAL else r;
      if Has(facts, MatchLeft) then c == INITIAL.context
      else
        && (c.supplementAvailable <==> !Has(facts, MatchEntered) && !Skips(cfg, r, s, facts) && Playing(TeamAfter(known, s)))
        && c.localPlayerAlive == AliveAfter(known, s, facts)
        && c.localPlayerAcquired == (known.acquired || Has(facts, LocalPlayerAcquired) || s.localPlayerValid)
  {
    hide Prepare, Evaluate, Close, Has, INITIAL, Skips, AliveAfter, TeamAfter, Playing, ValidTeamCounts, CurrentRoundSupplement;
    var p := Prepare(cfg, r, s, facts);
    PrepareInv(cfg, r, s, facts);
    PreparedPlayer(cfg, r, s, facts);
    hide Inv;
    ValidSupplement(cfg, p);
    EvaluateAvailable(cfg, p, s.relativeUs);
    CloseAvailable(Evaluate(cfg, p, s.relativeUs).0, s.relativeUs, facts);
  }

  lemma ValidSupplement(cfg: Config, r: Resolver)
    requires Inv(cfg, r)
    ensures r.supplement.Some? ==> ValidTeamCounts(r.supplement.value.teams)
  {
  }

  /** After an accepted supplement it shows counts exactly when a packet came before and the local
      team is one of the two; a refused one changes nothing. */
  lemma SupplementContextExactly(cfg: Config, r: Resolver, snap: Snapshot)
    requires Shows(r)
    ensures
      var c := ProcessSupplement(cfg, r, snap).0.context;
      if Accepts(r, snap) then c.supplementAvailable <==> r.latest.Some? && Playing(r.team) else c == r.context
  {
    hide Interpret, Playing, ShowsPacket;
    if Accepts(r, snap) {
      InterpretAvailable(cfg, Accepted(r, snap), snap, snap.relativeUs);
    }
  }
}
