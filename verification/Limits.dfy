/** Where the conditional theorems need their conditions: runs of detector and resolver,
    from the first snapshot on, that break each. */
module Limits {
  import opened Telemetry
  import opened EventDetection
  import opened DetectorTheorems
  import opened SupplementaryCounts
  import opened SemanticResolution
  import opened ResolverTheorems
  import opened Spine

  // ----- The snapshots -----

  /** The local player, alive, in a live round of a competitive match. */
  const QUIET := GameState(1, 0, true, Some("1"), Some("de_dust2"), Some("competitive"), Some("live"), Some(3),
                           Some("live"), None, None, Some("1"), true, Some("CT"), Some(100),
                           None, None, None, None, None, None, None, NO_CARRIED)

  function Live(us: nat): GameState { QUIET.(relativeUs := us) }

  function Freeze(us: nat): GameState { QUIET.(relativeUs := us, roundPhase := Some("freezetime")) }

  function Dead(us: nat): GameState { QUIET.(relativeUs := us, health := Some(0)) }

  /** One CT player against two, observed at `us`. */
  function Duel(us: nat): Snapshot {
    Snapshot(1, us, us, Some(7), PanoramaVisibleState, TeamCounts(Some(1), Some(2), Some(5), Some(5)))
  }

  // ----- What the detector makes of them -----

  /** The memory after any number of such snapshots. */
  predicate Watching(m: DetectorMemory, p: GameState) {
    && Valid(m) && m.previous == Some(p) && m.everAcquired && !m.lost
    && m.lastEndedRound.None? && m.lastOutcomeRound.None?
  }

  lemma HasAdvance(m: DetectorMemory, p: GameState, s: GameState, k: EventKind)
    ensures Has(Advance(m, p, s, false).1, k) <==>
      || Has(Opening(m, false, s), k) || Has(Restoration(m, s), k) || Has(Pairwise(p, s), k)
      || Has(BombChanges(p, s), k) || Has(RoundClose(m, p, s), k) || Has(PhaseChanges(m, p, s), k)
  {
    hide Opening, Restoration, Pairwise, BombChanges, RoundClose, PhaseChanges, Has;
    var a, b := Opening(m, false, s), Restoration(m, s);
    var d, f, g, h := Pairwise(p, s), BombChanges(p, s), RoundClose(m, p, s), PhaseChanges(m, p, s);
    HasConcat(a, b, k);
    HasConcat(a + b, Changes(m, p, s), k);
    HasConcat(d, f, k);
    HasConcat(d + f, g, k);
    HasConcat(d + f + g, h, k);
  }

  lemma LifeHas(p: GameState, s: GameState)
    requires p.localPlayerValid && s.localPlayerValid && p.health.Some? && s.health.Some?
    ensures Has(Pairwise(p, s), PlayerDied) == (p.health.value > 0 && s.health.value == 0)
    ensures Has(Pairwise(p, s), PlayerRespawned) == (p.health.value == 0 && s.health.value > 0)
  {
    PairwiseParts(p, s);
    var h, k, r := Health(p, s), Kills(p, s), PairwiseRest(p, s);
    RestLifeless(p, s);
    HealthHas(p, s);
    hide Pairwise, Health, Kills, PairwiseRest, Has;
    forall kind | kind in {PlayerDied, PlayerRespawned} ensures Has(h + k + r, kind) == Has(h, kind) {
      HasConcat(h, k, kind);
      HasConcat(h + k, r, kind);
      HasNone(k, {PlayerKill, AceCandidate});
    }
  }

  lemma RestLifeless(p: GameState, s: GameState)
    ensures !Has(PairwiseRest(p, s), PlayerDied) && !Has(PairwiseRest(p, s), PlayerRespawned)
  {
    hide Rise, Onset;
  }

  lemma HealthHas(p: GameState, s: GameState)
    requires p.health.Some? && s.health.Some?
    ensures Has(Health(p, s), PlayerDied) == (p.health.value > 0 && s.health.value == 0)
    ensures Has(Health(p, s), PlayerRespawned) == (p.health.value == 0 && s.health.value > 0)
  {
    var damage := if s.health.value < p.health.value
      then [Make(PlayerDamaged, s).(amount := Some(p.health.value - s.health.value), value := s.health)] else [];
    var died, revived := When(p.health.value > 0 && s.health.value == 0, PlayerDied, s),
                         When(p.health.value == 0 && s.health.value > 0, PlayerRespawned, s);
    assert Health(p, s) == damage + died + revived;
    HasNone(damage, {PlayerDamaged});
    forall kind ensures Has(damage + died + revived, kind) == (Has(damage, kind) || Has(died, kind) || Has(revived, kind)) {
      HasConcat(damage, died, kind);
      HasConcat(damage + died, revived, kind);
    }
    HasWhen(p.health.value > 0 && s.health.value == 0, PlayerDied, s, PlayerDied);
    HasWhen(p.health.value > 0 && s.health.value == 0, PlayerDied, s, PlayerRespawned);
    HasWhen(p.health.value == 0 && s.health.value > 0, PlayerRespawned, s, PlayerDied);
    HasWhen(p.health.value == 0 && s.health.value > 0, PlayerRespawned, s, PlayerRespawned);
    hide Health, When, Has;
  }

  /** Snapshots of the same round and map that differ in time, phase and health only. */
  predicate SameRound(p: GameState, s: GameState) {
    && s.payloadValid && p.mapName.Some? && s.mapName.Some? && p.localPlayerValid && s.localPlayerValid
    && p.health.Some? && s.health.Some?
    && s.mapPhase == p.mapPhase && s.mapRound == p.mapRound && s.roundWinner == p.roundWinner == None
    && s.roundPhase in {Some("freezetime"), Some("live")}
  }

  lemma NothingEnds(m: DetectorMemory, p: GameState, s: GameState)
    requires Watching(m, p) && SameRound(p, s)
    ensures RoundClose(m, p, s) == [] && !GameOverStarted(p, s) && LastEndedAfter(m, p, s).None?
  {
    assert |"over"| == 4 && |"freezetime"| == 10 && "live"[0] == 'l' && "over"[0] == 'o';
    hide Valid;
  }

  lemma NothingOver(m: DetectorMemory, p: GameState, s: GameState)
    requires !GameOverStarted(p, s)
    ensures !Has(PhaseChanges(m, p, s), GameOver)
  {
    HasConcat(RoundPhases(p, s) + TeamChange(m, s), When(GameOverStarted(p, s), GameOver, s), GameOver);
    HasConcat(RoundPhases(p, s), TeamChange(m, s), GameOver);
    HasNone(RoundPhases(p, s), {FreezeStarted, FreezeEnded, RoundStarted, HalftimeStarted, HalftimeEnded});
    HasNone(TeamChange(m, s), {TeamChanged});
    hide RoundPhases, TeamChange, Has;
  }

  lemma Lacks(events: seq<Event>, kinds: set<EventKind>, k: EventKind)
    requires (forall e :: e in events ==> e.kind in kinds) && k !in kinds
    ensures !Has(events, k)
  {
  }

  lemma OpeningLacks(m: DetectorMemory, s: GameState, k: EventKind)
    requires k !in {LocalPlayerAcquired, LocalPlayerLost}
    ensures !Has(Opening(m, false, s), k)
  {
    OpeningSansEntry(m, s);
    hide Opening, Has;
    Lacks(Opening(m, false, s), {LocalPlayerAcquired, LocalPlayerLost}, k);
  }

  lemma PhasesLack(m: DetectorMemory, p: GameState, s: GameState, k: EventKind)
    requires k in {PlayerDied, PlayerRespawned, RoundEnded}
    ensures !Has(PhaseChanges(m, p, s), k)
  {
    hide PhaseChanges, Has;
    Lacks(PhaseChanges(m, p, s),
          {FreezeStarted, FreezeEnded, RoundStarted, HalftimeStarted, HalftimeEnded, TeamChanged, GameOver}, k);
  }

  lemma BombLacks(p: GameState, s: GameState, k: EventKind)
    requires k in {PlayerDied, PlayerRespawned, RoundEnded, GameOver}
    ensures !Has(BombChanges(p, s), k)
  {
    hide BombChanges, Has;
    Lacks(BombChanges(p, s), {BombPlanted, BombDefused, BombExploded, BombStateCleared}, k);
  }

  /** A fact about life comes from the pairwise comparison, unless the player was restored. */
  lemma LifeFromPair(m: DetectorMemory, p: GameState, s: GameState, k: EventKind)
    requires k in {PlayerDied, PlayerRespawned} && !m.lost
    ensures Has(Advance(m, p, s, false).1, k) == Has(Pairwise(p, s), k)
  {
    assert Restoration(m, s) == [];
    hide Opening, Restoration, Pairwise, BombChanges, RoundClose, PhaseChanges, Has, Advance;
    Lacks([], {}, k);
    OpeningLacks(m, s, k);
    BombLacks(p, s, k);
    Lacks(RoundClose(m, p, s), {RoundEnded, RoundWon, RoundLost}, k);
    PhasesLack(m, p, s, k);
    HasAdvance(m, p, s, k);
  }

  lemma LocalLacks(m: DetectorMemory, p: GameState, s: GameState, k: EventKind)
    requires k in {RoundEnded, GameOver}
    ensures !Has(Restoration(m, s), k) && !Has(Pairwise(p, s), k)
  {
    hide Restoration, Pairwise, Has;
    Lacks(Restoration(m, s), {LocalPlayerRestored, PlayerRespawned, MvpGained, PlayerAssist}, k);
    Lacks(Pairwise(p, s), {PlayerDamaged, PlayerDied, PlayerRespawned, PlayerKill, AceCandidate, PlayerHeadshotKill,
                           PlayerAssist, PlayerFlashed, PlayerSmoked, PlayerBurning, MvpGained}, k);
  }

  lemma NothingClosed(m: DetectorMemory, p: GameState, s: GameState, k: EventKind)
    requires RoundClose(m, p, s) == [] && !GameOverStarted(p, s) && k in {RoundEnded, GameOver}
    ensures !Has(Advance(m, p, s, false).1, k)
  {
    NothingOver(m, p, s);
    hide Opening, Restoration, Pairwise, BombChanges, RoundClose, PhaseChanges, Has, Advance;
    OpeningLacks(m, s, k);
    LocalLacks(m, p, s, k);
    BombLacks(p, s, k);
    Lacks([], {}, k);
    if k == RoundEnded {
      PhasesLack(m, p, s, k);
    }
    HasAdvance(m, p, s, k);
  }

  /** The facts that steer the resolver, and the memory that stays as it was. */
  lemma SameRoundFacts(m: DetectorMemory, p: GameState, s: GameState)
    requires Watching(m, p) && SameRound(p, s)
    ensures
      var (next, facts) := Detect(m, s);
      && Watching(next, s)
      && !Has(facts, MatchEntered) && !ClosesRound(facts)
      && Has(facts, RoundStarted) == RoundStarts(p, s)
      && Has(facts, PlayerDied) == (p.health.value > 0 && s.health.value == 0)
      && Has(facts, PlayerRespawned) == (p.health.value == 0 && s.health.value > 0)
  {
    hide Detect, Advance, Has, RoundClose, Pairwise, RoundStarts, Valid, LastEndedAfter, GameOverStarted;
    SameRoundAdvances(m, p, s);
    BatchFacts(m, s);
    NothingEnds(m, p, s);
    NothingClosed(m, p, s, RoundEnded);
    NothingClosed(m, p, s, GameOver);
    LifeHas(p, s);
    LifeFromPair(m, p, s, PlayerDied);
    LifeFromPair(m, p, s, PlayerRespawned);
  }

  lemma SameRoundAdvances(m: DetectorMemory, p: GameState, s: GameState)
    requires Watching(m, p) && SameRound(p, s)
    ensures Detect(m, s) == Advance(m, p, s, false) && Watching(Detect(m, s).0, s)
  {
    NothingEnds(m, p, s);
    DetectKeepsValid(m, s);
    hide Opening, Restoration, Changes, LastEndedAfter, Valid;
  }

  lemma EntryFacts(us: nat)
    ensures
      var (m, facts) := Detect(BLANK, Freeze(us));
      && Watching(m, Freeze(us)) && Has(facts, MatchEntered) && !ClosesRound(facts) && !Has(facts, RoundStarted)
      && !Has(facts, PlayerDied) && !Has(facts, PlayerRespawned)
  {
    var facts := Detect(BLANK, Freeze(us)).1;
    assert forall e :: e in facts ==> e.kind in {MatchEntered, LocalPlayerAcquired};
    assert facts[0] in facts;
    HasNone(facts, {MatchEntered, LocalPlayerAcquired});
    hide Detect;
  }

  // ----- What the resolver makes of them -----

  /** Before any supplement: the latest packet, a living CT player, and a round start if there was one. */
  predicate Uncounted(r: Resolver, s: GameState, start: Option<nat>) {
    && r.latest == Some(s) && r.team == Some("CT") && r.alive == Some(true)
    && r.supplement.None? && r.lastSupplementUs.None? && !r.clutch && !r.ended
    && r.knownStart == start.Some? && (start.Some? ==> r.startUs == start.value)
  }

  lemma PacketUncounted(cfg: Config, r: Resolver, s: GameState, facts: seq<Event>, start: Option<nat>)
    requires s.localPlayerValid && s.playerTeam == Some("CT") && s.health == Some(100)
    requires !ClosesRound(facts) && !Has(facts, PlayerDied) && !Has(facts, PlayerRespawned)
    requires Has(facts, MatchEntered) ==> start.None? && !Has(facts, RoundStarted)
    requires !Has(facts, MatchEntered) ==> exists p :: Uncounted(r, p, start)
    ensures Uncounted(ProcessGsi(cfg, r, s, facts).0, s, if Has(facts, RoundStarted) then Some(s.relativeUs) else start)
  {
    PrepareFields(cfg, r, s, facts);
    hide Prepare, Has, ClosesRound;
  }

  /** A clutch that the supplement at `us` showed. */
  predicate Dueling(r: Resolver, us: nat) {
    && r.clutch && r.knownStart && !r.ended && r.startUs <= us && r.supplement == Some(Duel(us)) && r.team == Some("CT")
    && r.opponents == Some(2)
  }

  lemma DuelSeen(r: Resolver, us: nat)
    requires r.team == Some("CT")
    ensures Seen(r, Duel(us)) == Some(Perspective(Some(1), Some(2), Some(5), Some(5)))
    ensures ValidTeamCounts(Duel(us).teams)
  {
  }

  lemma DuelBegins(cfg: Config, r: Resolver, start: nat, us: nat)
    requires Inv(cfg, r) && Uncounted(r, Live(start), Some(start)) && start <= us
    ensures Dueling(ProcessSupplement(cfg, r, Duel(us)).0, us)
  {
    var a := Accepted(r, Duel(us));
    DuelSeen(a, us);
    AcceptInv(cfg, r, Duel(us));
    InterpretInv(cfg, a, Duel(us), us);
    var j := Interpret(cfg, a, Duel(us), us).0;
    DuelSeen(j, us);
    hide Interpret, Duel, Inv, Observe, Seen, ValidTeamCounts;
  }

  // ----- The clutch flag without timely packets -----

  const STALE_RUN := [Reported(Freeze(0)), Reported(Live(10)), Counted(Duel(30)), Reported(Dead(20))]

  /** The packet is stamped before the supplement, so evaluation is skipped: in terms of
      ReadsEvidence, what is left alone is wrong. */
  lemma StaleStep(cfg: Config, r: Resolver, us: nat, s: GameState, facts: seq<Event>)
    requires Inv(cfg, r) && Dueling(r, us) && s.relativeUs < us
    requires !Has(facts, MatchEntered) && !ClosesRound(facts) && !Has(facts, RoundStarted)
    requires Has(facts, PlayerDied) && !Has(facts, PlayerRespawned)
    ensures !ReadsEvidence(cfg, r, s, facts)
    ensures
      var after := ProcessGsi(cfg, r, s, facts).0;
      after.clutch && after.alive == Some(false) && !ClutchFaithful(after)
  {
    hide Prepare, Has, ClosesRound, RoundOver, ClutchFaithful, Interpret, PerspectiveForTeam;
    RoundOverCloses(facts);
    PacketClutchExactly(cfg, r, s, facts);
    PrepareFields(cfg, r, s, facts);
  }

  /** Without timely packets the clutch flag need not be its predicate: freeze time, a live packet
      at 10, a supplement at 30, then a packet at 20 in which the player dies. The clutch stays. */
  lemma ClutchNeedsTimelyPackets(cfg: Config)
    ensures
      var r := StateAt(cfg, STALE_RUN, 4).resolver;
      r.clutch && r.alive == Some(false) && !ClutchFaithful(r)
  {
    hide Detect, ProcessGsi, ProcessSupplement, Inv, Valid, Watching, Dueling, Has, ClosesRound, ClutchFaithful, Uncounted, INITIAL,
         BLANK, Duel, ReadsEvidence;
    RoundOpens(cfg, STALE_RUN, 10);
    var y := StateAt(cfg, STALE_RUN, 2);
    AlwaysSound(cfg, STALE_RUN, 2);
    AlwaysSound(cfg, STALE_RUN, 3);
    DuelBegins(cfg, y.resolver, 10, 30);
    assert StateAt(cfg, STALE_RUN, 3) == Feed(cfg, y, STALE_RUN[2]).0;
    SameRoundFacts(y.detector, Live(10), Dead(20));
    StaleStep(cfg, StateAt(cfg, STALE_RUN, 3).resolver, 30, Dead(20), Detect(y.detector, Dead(20)).1);
    assert StateAt(cfg, STALE_RUN, 4) == Feed(cfg, StateAt(cfg, STALE_RUN, 3), STALE_RUN[3]).0;
  }

  /** Freeze time and a live packet start a round. */
  lemma RoundOpens(cfg: Config, obs: seq<Observation>, us: nat)
    requires |obs| >= 2 && obs[0] == Reported(Freeze(0)) && obs[1] == Reported(Live(us))
    ensures
      var y := StateAt(cfg, obs, 2);
      Watching(y.detector, Live(us)) && Uncounted(y.resolver, Live(us), Some(us))
  {
    hide Detect, ProcessGsi, Valid, Watching, Has, ClosesRound, Uncounted, INITIAL, BLANK;
    EntryFacts(0);
    var m, facts := Detect(BLANK, Freeze(0)).0, Detect(BLANK, Freeze(0)).1;
    PacketUncounted(cfg, INITIAL, Freeze(0), facts, None);
    assert StateAt(cfg, obs, 0) == START;
    assert StateAt(cfg, obs, 1) == SpineState(m, ProcessGsi(cfg, INITIAL, Freeze(0), facts).0);
    SameRoundFacts(m, Freeze(0), Live(us));
    PacketUncounted(cfg, StateAt(cfg, obs, 1).resolver, Live(us), Detect(m, Live(us)).1, None);
    assert StateAt(cfg, obs, 2) == Feed(cfg, StateAt(cfg, obs, 1), obs[1]).0;
  }

  // ----- Counts from before the round without ordered packets -----

  const BACKWARDS_RUN := [Reported(Freeze(0)), Reported(Live(100)), Reported(Live(50)), Counted(Duel(60))]

  lemma OldCountsShown(cfg: Config, r: Resolver, latest: nat, start: nat, us: nat)
    requires Inv(cfg, r) && Uncounted(r, Live(latest), Some(start)) && latest <= us < start
    ensures
      var after := ProcessSupplement(cfg, r, Duel(us)).0;
      after.context.supplementAvailable && after.knownStart && after.context.supplementUs < after.startUs
  {
    var a := Accepted(r, Duel(us));
    DuelSeen(a, us);
    ObserveShown(a, Duel(us));
    var o := Observe(a, Duel(us));
    hide Observe, EvaluateAce, AceProven, EvaluateClutch, Duel, Seen, ValidTeamCounts;
    ClutchFrame(o, us);
    EvaluateAceInv(cfg, EvaluateClutch(o, us).0, us);
  }

  lemma ObserveShown(r: Resolver, snap: Snapshot)
    requires Seen(r, snap).Some?
    ensures
      var o := Observe(r, snap);
      && o.context.supplementAvailable && o.context.supplementUs == snap.relativeUs
      && o == r.(context := o.context, churned := o.churned)
  {
    hide Seen, Contradicts;
  }

  /** Without ordered packets the context can show counts observed before the round started:
      freeze time, a live packet at 100, one at 50, then a supplement at 60. */
  lemma ContextNeedsOrderedPackets(cfg: Config)
    ensures
      var r := StateAt(cfg, BACKWARDS_RUN, 4).resolver;
      r.context.supplementAvailable && r.knownStart && r.context.supplementUs < r.startUs
    ensures ShowsOld(StateAt(cfg, BACKWARDS_RUN, 4).resolver) && !ShowsOld(StateAt(cfg, BACKWARDS_RUN, 3).resolver)
  {
    hide Detect, ProcessGsi, ProcessSupplement, Inv, Valid, Watching, Has, ClosesRound, Uncounted, INITIAL, BLANK, Duel;
    RoundOpens(cfg, BACKWARDS_RUN, 100);
    var y := StateAt(cfg, BACKWARDS_RUN, 2);
    AlwaysSound(cfg, BACKWARDS_RUN, 2);
    AlwaysSound(cfg, BACKWARDS_RUN, 3);
    SameRoundFacts(y.detector, Live(100), Live(50));
    var facts := Detect(y.detector, Live(50)).1;
    PacketUncounted(cfg, y.resolver, Live(50), facts, Some(100));
    PacketShowsNothingOld(cfg, y.resolver, Live(50), facts);
    assert StateAt(cfg, BACKWARDS_RUN, 3) == Feed(cfg, y, BACKWARDS_RUN[2]).0;
    OldCountsShown(cfg, StateAt(cfg, BACKWARDS_RUN, 3).resolver, 50, 100, 60);
    assert StateAt(cfg, BACKWARDS_RUN, 4) == Feed(cfg, StateAt(cfg, BACKWARDS_RUN, 3), BACKWARDS_RUN[3]).0;
  }

  // ----- Blind gaps -----

  lemma BlindGapAmounts()
    ensures
      var blank := QUIET.(observedId := None, localPlayerValid := false, assists := None);
      var h := [QUIET.(assists := Some(1)), blank, QUIET.(assists := Some(3))];
      Gained(Assists, h) == 2 && GainedBlind(Assists, h) == 2
  {
    var blank := QUIET.(observedId := None, localPlayerValid := false, assists := None);
    var one, three := QUIET.(assists := Some(1)), QUIET.(assists := Some(3));
    var h := [one, blank, three];
    assert h[..2] == [one, blank] && [one, blank][..1] == [one] && [one][..0] == [];
    assert !OtherSeenSince([one, blank]);
    assert LastReading(Assists, [one]) == Some(1);
    assert LastReading(Assists, [one, blank]) == Some(1);
    GainedSingle(Assists, one);
    assert Gained(Assists, [one, blank]) == 0 && GainedBlind(Assists, [one, blank]) == 0;
  }

  /** A gap in which nobody else is seen hides what the counter gained in it: a match entered
      with one assist, a snapshot without a player, then three assists, and none is reported. */
  lemma BlindGapLoses(m: DetectorMemory)
    requires Valid(m) && Enters(m, QUIET.(assists := Some(1)))
    ensures
      var blank := QUIET.(observedId := None, localPlayerValid := false, assists := None);
      var entry, back := QUIET.(assists := Some(1)), QUIET.(assists := Some(3));
      Gained(Assists, [entry, blank, back]) == 2
      && Amounts(PlayerAssist, Trace(Detect(m, entry).0, [blank, back])) == 0
  {
    var blank := QUIET.(observedId := None, localPlayerValid := false, assists := None);
    var entry, back := QUIET.(assists := Some(1)), QUIET.(assists := Some(3));
    BlindGapAmounts();
    assert [entry] + [blank, back] == [entry, blank, back];
    assert InMatch([entry, blank, back]);
    hide Detect, Gained, GainedBlind, Valid, Enters, Amounts, Trace, Summarizes;
    CountersConserved(Assists, m, entry, [blank, back]);
  }
}
