/** What the resolver promises over every history of packets and team counts. */
module ResolverTheorems {
  import opened Telemetry
  import opened Traces
  import opened SupplementaryCounts
  import opened Text
  import opened SemanticResolution

  // ----- Histories -----

  datatype Input = Packet(state: GameState, facts: seq<Event>) | Counts(snap: Snapshot)

  function Step(cfg: Config, r: Resolver, i: Input): (Resolver, seq<Event>) {
    match i
    case Packet(s, facts) => ProcessGsi(cfg, r, s, facts)
    case Counts(snap) => ProcessSupplement(cfg, r, snap)
  }

  /** The state before input `n` of a history. */
  function Before(cfg: Config, ins: seq<Input>, n: nat): Resolver
    requires n <= |ins|
  {
    if n == 0 then INITIAL else Step(cfg, Before(cfg, ins, n - 1), ins[n - 1]).0
  }

  function EmittedAt(cfg: Config, ins: seq<Input>, n: nat): seq<Event>
    requires n < |ins|
  {
    Step(cfg, Before(cfg, ins, n), ins[n]).1
  }

  // ----- The resolver's invariant -----

  predicate Inv(cfg: Config, r: Resolver) {
    && r.context.clutchActive == r.clutch
    && r.context.clutchOpponents == r.opponents
    && r.context.rosterChanged == r.churned
    && r.clutch == r.opponents.Some?
    && (r.clutch ==> ClutchEvaluable(r))
    && (r.knownStart ==> r.latest.Some?)
    && (r.supplement.Some? ==> ValidTeamCounts(r.supplement.value.teams))
    && r.lastSupplementUs == (if r.supplement.Some? then Some(r.supplement.value.relativeUs) else None)
    && (r.baseTotal.Some? ==> r.knownStart && (cfg.requireRevision ==> r.baseRevision.Some?))
    && (r.baseTotal.None? ==> r.baseRevision.None? && !r.churned)
  }

  lemma PrepareInv(cfg: Config, r: Resolver, s: GameState, facts: seq<Event>)
    requires Inv(cfg, r)
    ensures Inv(cfg, Prepare(cfg, r, s, facts)) && Prepare(cfg, r, s, facts).latest == Some(s)
  {
    hide Has;
  }

  lemma CountsInv(cfg: Config, r: Resolver, snap: Snapshot)
    requires Inv(cfg, r)
    ensures
      var r' := WithCounts(r, snap);
      Inv(cfg, r') && r' == r.(context := r'.context)
  {
  }

  lemma ObserveInv(cfg: Config, r: Resolver, snap: Snapshot)
    requires Inv(cfg, r)
    ensures
      var r' := Observe(r, snap);
      Inv(cfg, r') && r' == r.(context := r'.context, churned := r'.churned)
  {
    hide PerspectiveForTeam, Contradicts, WithCounts, ValidTeamCounts;
    CountsInv(cfg, r, snap);
  }

  lemma ClutchFrame(r: Resolver, us: nat)
    ensures
      var r' := EvaluateClutch(r, us).0;
      r' == r || r' == WithClutch(r, r'.clutch, r'.opponents)
  {
  }

  lemma EvaluateClutchInv(cfg: Config, r: Resolver, us: nat)
    requires Inv(cfg, r)
    ensures Inv(cfg, EvaluateClutch(r, us).0) && ClutchFaithful(EvaluateClutch(r, us).0)
  {
    hide PerspectiveForTeam, ValidTeamCounts;
    ClutchFrame(r, us);
    var view := if ClutchEvaluable(r) then Seen(r, r.supplement.value) else None;
    if view.Some? && ClutchNow(r, view.value) {
      assert EvaluateClutch(r, us).0 == WithClutch(r, true, view.value.enemyAlive);
    } else if ClutchEvaluable(r) {
      assert EvaluateClutch(r, us) == ClutchEnd(r, us);
    }
  }

  lemma EvaluateAceInv(cfg: Config, r: Resolver, us: nat)
    ensures EvaluateAce(cfg, r, us).0 == r.(aceEmitted := r.aceEmitted || AceProven(cfg, r))
    ensures EvaluateAce(cfg, r, us).1 ==
      if AceProven(cfg, r) then [SemanticEvent(Ace, r.latest, us).(value := r.latest.value.roundKills)] else []
  {
  }

  lemma InterpretInv(cfg: Config, r: Resolver, snap: Snapshot, us: nat)
    requires Inv(cfg, r)
    ensures
      var r' := Interpret(cfg, r, snap, us).0;
      && Inv(cfg, r') && ClutchFaithful(r')
      && r' == r.(context := r'.context, churned := Observe(r, snap).churned, aceEmitted := r'.aceEmitted,
                  clutch := r'.clutch, opponents := r'.opponents)
  {
    hide Observe, EvaluateClutch, EvaluateAce, PerspectiveForTeam, AceProven, ValidTeamCounts;
    ObserveInv(cfg, r, snap);
    EvaluateClutchInv(cfg, Observe(r, snap), us);
    ClutchFrame(Observe(r, snap), us);
    EvaluateAceInv(cfg, EvaluateClutch(Observe(r, snap), us).0, us);
  }

  lemma EvaluateInv(cfg: Config, r: Resolver, us: nat)
    requires Inv(cfg, r)
    ensures
      var r' := Evaluate(cfg, r, us).0;
      && Inv(cfg, r')
      && r' == r.(context := r'.context, churned := r'.churned, aceEmitted := r'.aceEmitted,
                  clutch := r'.clutch, opponents := r'.opponents)
      && (CurrentRoundSupplement(cfg, r, us) ==>
            ClutchFaithful(r') && r'.churned == Observe(r, r.supplement.value).churned)
      && (!CurrentRoundSupplement(cfg, r, us) ==>
            r'.clutch == r.clutch && r'.churned == r.churned && r'.aceEmitted == r.aceEmitted)
  {
    hide Interpret, Observe, ClutchFaithful, ValidTeamCounts;
    if CurrentRoundSupplement(cfg, r, us) {
      InterpretInv(cfg, r, r.supplement.value, us);
    }
  }

  lemma CloseInv(cfg: Config, r: Resolver, us: nat, facts: seq<Event>)
    requires Inv(cfg, r)
    ensures Inv(cfg, Close(r, us, facts).0)
    ensures ClosesRound(facts) ==> ClutchFaithful(Close(r, us, facts).0) && !Close(r, us, facts).0.clutch
  {
    hide ClosesRound, Has, ValidTeamCounts, PerspectiveForTeam;
  }

  lemma StepInv(cfg: Config, r: Resolver, i: Input)
    requires Inv(cfg, r)
    ensures Inv(cfg, Step(cfg, r, i).0)
  {
    match i
    case Packet(s, facts) =>
      hide Prepare, Evaluate, Close, Inv;
      PrepareInv(cfg, r, s, facts);
      var p := Prepare(cfg, r, s, facts);
      EvaluateInv(cfg, p, s.relativeUs);
      CloseInv(cfg, Evaluate(cfg, p, s.relativeUs).0, s.relativeUs, facts);
    case Counts(snap) =>
      if Accepts(r, snap) {
        AcceptInv(cfg, r, snap);
        hide Interpret, Inv;
        InterpretInv(cfg, Accepted(r, snap), snap, snap.relativeUs);
      }
  }

  lemma AcceptInv(cfg: Config, r: Resolver, snap: Snapshot)
    requires Inv(cfg, r) && Accepts(r, snap)
    ensures Inv(cfg, Accepted(r, snap))
  {
  }

  lemma InitialInv(cfg: Config)
    ensures Inv(cfg, INITIAL) && ClutchFaithful(INITIAL)
  {
  }

  /** Every reachable state satisfies the invariant. */
  lemma {:induction false} ReachableInv(cfg: Config, ins: seq<Input>, n: nat)
    requires n <= |ins|
    ensures Inv(cfg, Before(cfg, ins, n))
  {
    hide Step, Inv;
    InitialInv(cfg);
    if n > 0 {
      ReachableInv(cfg, ins, n - 1);
      StepInv(cfg, Before(cfg, ins, n - 1), ins[n - 1]);
    }
  }

  // ----- Which supplements are taken, and which are fresh -----

  /** Taken exactly when the counts make sense and neither an accepted supplement nor a packet is newer. */
  lemma AcceptsExactly(r: Resolver, snap: Snapshot)
    ensures Accepts(r, snap) <==>
      && Sensible(snap.teams.ctAlive, snap.teams.ctTotal) && Sensible(snap.teams.tAlive, snap.teams.tTotal)
      && !(r.lastSupplementUs.Some? && snap.relativeUs < r.lastSupplementUs.value)
      && !(r.latest.Some? && snap.relativeUs < r.latest.value.relativeUs)
  {
    ValidExactly(snap.teams);
    hide ValidTeamCounts, Sensible;
  }

  /** Fresh exactly when not stamped later and not older than the limit, if there is one. */
  lemma FreshExactly(cfg: Config, snap: Snapshot, us: nat)
    ensures FreshAt(cfg, snap, us) <==>
      !(snap.relativeUs > us) && !(cfg.maxAgeUs.Some? && snap.relativeUs + cfg.maxAgeUs.value < us)
    ensures FreshAt(DEFAULT_CONFIG, snap, us) <==> snap.relativeUs <= us
    ensures DEFAULT_CONFIG.requireRevision
  {
  }

  // ----- What semantic events carry -----

  /** Certain, from both sources, under the latest packet's number and at the time of the evidence. */
  predicate Stamped(e: Event, sequence: nat, us: nat) {
    && e.kind in {Ace, ClutchStarted, ClutchUpdated, ClutchEnded}
    && e.evidence == Deterministic && e.sources == {Gsi, SupplementaryState}
    && e.sequence == sequence && e.relativeUs == us && e.amount.None? && e.value.Some?
    && (e.kind != ClutchUpdated ==> e.before == "" && e.after == "")
  }

  predicate AllStamped(events: seq<Event>, sequence: nat, us: nat) {
    forall e :: e in events ==> Stamped(e, sequence, us)
  }

  lemma StampedConcat(a: seq<Event>, b: seq<Event>, sequence: nat, us: nat)
    requires AllStamped(a, sequence, us) && AllStamped(b, sequence, us)
    ensures AllStamped(a + b, sequence, us)
  {
    hide Stamped;
  }

  lemma ClutchStamped(r: Resolver, us: nat)
    requires r.latest.Some? && (r.clutch ==> r.opponents.Some?)
    ensures AllStamped(EvaluateClutch(r, us).1, r.latest.value.sequence, us)
    ensures AllStamped(ClutchEnd(r, us).1, r.latest.value.sequence, us)
  {
    hide Seen;
  }

  lemma AceStamped(cfg: Config, r: Resolver, us: nat)
    requires r.latest.Some?
    ensures AllStamped(EvaluateAce(cfg, r, us).1, r.latest.value.sequence, us)
  {
    if AceProven(cfg, r) {
      assert r.baseTotal.Some? && r.latest.value.roundKills == r.baseTotal;
    }
    hide AceProven;
  }

  lemma InterpretStamped(cfg: Config, r: Resolver, snap: Snapshot, us: nat)
    requires Inv(cfg, r) && r.latest.Some?
    ensures AllStamped(Interpret(cfg, r, snap, us).1, r.latest.value.sequence, us)
  {
    var o := Observe(r, snap);
    ObserveInv(cfg, r, snap);
    ClutchFrame(o, us);
    var k := EvaluateClutch(o, us).0;
    assert o.clutch == o.opponents.Some?;
    hide Observe, EvaluateClutch, EvaluateAce, Inv, AllStamped, ClutchEnd;
    ClutchStamped(o, us);
    AceStamped(cfg, k, us);
    StampedConcat(EvaluateClutch(o, us).1, EvaluateAce(cfg, k, us).1, r.latest.value.sequence, us);
  }

  lemma CloseStamped(r: Resolver, us: nat, facts: seq<Event>)
    requires r.latest.Some? && (r.clutch ==> r.opponents.Some?)
    ensures AllStamped(Close(r, us, facts).1, r.latest.value.sequence, us)
  {
    ClutchStamped(r, us);
    hide ClosesRound, Has, EvaluateClutch, ClutchEnd, Stamped;
  }

  /** Everything a packet leads to carries the packet's number and time. */
  lemma PacketStamps(cfg: Config, r: Resolver, s: GameState, facts: seq<Event>)
    requires Inv(cfg, r)
    ensures AllStamped(ProcessGsi(cfg, r, s, facts).1, s.sequence, s.relativeUs)
  {
    PrepareInv(cfg, r, s, facts);
    var p := Prepare(cfg, r, s, facts);
    var (e, evaluated) := Evaluate(cfg, p, s.relativeUs);
    EvaluateInv(cfg, p, s.relativeUs);
    assert e.latest == Some(s) && e.clutch == e.opponents.Some?;
    if CurrentRoundSupplement(cfg, p, s.relativeUs) {
      hide Inv;
      InterpretStamped(cfg, p, p.supplement.value, s.relativeUs);
    }
    hide Prepare, Interpret, Close, Inv, AllStamped, ClutchFaithful, Observe, CurrentRoundSupplement;
    CloseStamped(e, s.relativeUs, facts);
    NoneStamped(s.sequence, s.relativeUs);
    StampedConcat(evaluated, Close(e, s.relativeUs, facts).1, s.sequence, s.relativeUs);
  }

  lemma NoneStamped(sequence: nat, us: nat)
    ensures AllStamped([], sequence, us)
  {
  }

  /** Everything a supplement leads to carries the latest packet's number and the supplement's time. */
  lemma SupplementStamps(cfg: Config, r: Resolver, snap: Snapshot)
    requires Inv(cfg, r)
    ensures r.latest.None? ==> ProcessSupplement(cfg, r, snap).1 == []
    ensures r.latest.Some? ==> AllStamped(ProcessSupplement(cfg, r, snap).1, r.latest.value.sequence, snap.relativeUs)
  {
    if r.latest.Some? {
      NoneStamped(r.latest.value.sequence, snap.relativeUs);
      if Accepts(r, snap) {
        AcceptInv(cfg, r, snap);
        hide Interpret, Inv, AllStamped;
        InterpretStamped(cfg, Accepted(r, snap), snap, snap.relativeUs);
      }
    }
  }

  // ----- The clutch flag refines a declarative predicate -----

  predicate ClutchHolds(r: Resolver) {
    && ClutchEvaluable(r)
    && var view := Seen(r, r.supplement.value);
       view.Some? && ClutchNow(r, view.value)
  }

  /** The flag, the stored opponents and the exported context all say what the evidence says. */
  predicate ClutchFaithful(r: Resolver) {
    && r.clutch == r.context.clutchActive == ClutchHolds(r)
    && r.opponents == r.context.clutchOpponents
    && r.opponents == if ClutchHolds(r) then Seen(r, r.supplement.value).value.enemyAlive else None
  }

  /** The clutch predicate in the terms of the documentation: a live round with a known start and no
      end yet, the local player alive, the last of the own team, against at least one enemy, by
      counts from that round. */
  lemma ClutchHoldsExactly(cfg: Config, r: Resolver)
    requires Inv(cfg, r)
    ensures ClutchHolds(r) <==>
      && r.latest.Some? && r.latest.value.roundPhase == Some("live") && r.knownStart && !r.ended && r.alive == Some(true)
      && r.supplement.Some? && r.supplement.value.relativeUs >= r.startUs && r.team.Some?
      && OwnAlive(r.team.value, r.supplement.value.teams) == Some(1)
      && EnemyAlive(r.team.value, r.supplement.value.teams).Some?
      && EnemyAlive(r.team.value, r.supplement.value.teams).value >= 1
    ensures ClutchHolds(r) ==>
      Seen(r, r.supplement.value).value.enemyAlive == EnemyAlive(r.team.value, r.supplement.value.teams)
  {
    if r.supplement.Some? && r.team.Some? {
      PerspectiveExactly(r.supplement.value.teams, r.team.value);
    }
    hide PerspectiveForTeam, ValidTeamCounts, OwnTotal, EnemyTotal, WithinTotal;
  }

  // What a packet leaves known, in terms of the state before it.

  function TeamAfter(r: Resolver, s: GameState): Option<string> {
    if s.localPlayerValid && s.playerTeam.Some? then s.playerTeam else r.team
  }

  function AliveAfter(r: Resolver, s: GameState, facts: seq<Event>): Option<bool> {
    if Has(facts, PlayerRespawned) then Some(true)
    else if Has(facts, PlayerDied) then Some(false)
    else if s.localPlayerValid && s.health.Some? then Some(s.health.value > 0)
    else r.alive
  }

  /** Does the packet skip the evaluation? It does without a supplement, with one stamped after
      the packet or past the age limit, and with one from before the round. */
  predicate Skips(cfg: Config, r: Resolver, s: GameState, facts: seq<Event>) {
    || r.supplement.None?
    || r.supplement.value.relativeUs > s.relativeUs
    || (cfg.maxAgeUs.Some? && r.supplement.value.relativeUs + cfg.maxAgeUs.value < s.relativeUs)
    || (if Has(facts, RoundStarted) then r.supplement.value.relativeUs < s.relativeUs
        else r.knownStart && r.supplement.value.relativeUs < r.startUs)
  }

  /** The enemies alive, when the supplement and the packet together make a clutch. */
  function ClutchLeft(r: Resolver, s: GameState, facts: seq<Event>): Option<int> {
    var started, team := Has(facts, RoundStarted), TeamAfter(r, s);
    if r.supplement.Some? && team.Some? && (started || (r.knownStart && !r.ended))
       && r.supplement.value.relativeUs >= (if started then s.relativeUs else r.startUs)
       && s.roundPhase == Some("live") && AliveAfter(r, s, facts) == Some(true)
    then
      var enemies := EnemyAlive(team.value, r.supplement.value.teams);
      if OwnAlive(team.value, r.supplement.value.teams) == Some(1) && enemies.Some? && enemies.value >= 1
      then enemies else None
    else None
  }

  /** The round or the match is over. */
  predicate RoundOver(facts: seq<Event>) { Has(facts, RoundEnded) || Has(facts, GameOver) || Has(facts, MatchLeft) }

  lemma RoundOverCloses(facts: seq<Event>)
    ensures ClosesRound(facts) == RoundOver(facts)
  {
    hide Has;
  }

  /** A packet reads the evidence right if a match was entered, the round or the match is over,
      the evidence was evaluated, or what the skipped evaluation leaves alone was right anyway. */
  predicate ReadsEvidence(cfg: Config, r: Resolver, s: GameState, facts: seq<Event>) {
    || Has(facts, MatchEntered) || RoundOver(facts)
    || !Skips(cfg, r, s, facts)
    || (if Has(facts, RoundStarted) then None else r.opponents) == ClutchLeft(r, s, facts)
  }

  /** What evaluation starts from. */
  lemma PrepareFields(cfg: Config, r: Resolver, s: GameState, facts: seq<Event>)
    ensures
      var p, started := Prepare(cfg, r, s, facts), Has(facts, RoundStarted);
      var r := if Has(facts, MatchEntered) then INITIAL else r;
      && p.latest == Some(s) && p.supplement == r.supplement && p.lastSupplementUs == r.lastSupplementUs
      && p.team == TeamAfter(r, s) && p.alive == AliveAfter(r, s, facts)
      && p.knownStart == (started || r.knownStart) && p.startUs == (if started then s.relativeUs else r.startUs)
      && p.ended == (!started && r.ended)
      && p.clutch == (!started && r.clutch) && p.opponents == if started then None else r.opponents
  {
    hide Has, WithLocalPlayer, WithRoundStart, INITIAL;
    var r0 := if Has(facts, MatchEntered) then INITIAL else r;
    var local := WithLocalPlayer(r0, s, facts);
    LocalFields(r0, s, facts);
    StartFields(cfg, WithLifecycle(local, s), s);
  }

  lemma LocalFields(r: Resolver, s: GameState, facts: seq<Event>)
    ensures
      var p := WithLocalPlayer(r, s, facts);
      p == r.(latest := Some(s), acquired := p.acquired, team := TeamAfter(r, s), alive := AliveAfter(r, s, facts))
  {
    hide Has;
  }

  lemma StartFields(cfg: Config, r: Resolver, s: GameState)
    ensures
      var p := WithRoundStart(cfg, r, s);
      && p.latest == r.latest && p.supplement == r.supplement && p.lastSupplementUs == r.lastSupplementUs
      && p.team == r.team && p.alive == r.alive
      && p.knownStart && p.startUs == s.relativeUs && !p.ended && !p.clutch && p.opponents.None?
  {
    hide Seen;
  }

  lemma PreparedClutch(cfg: Config, r: Resolver, s: GameState, facts: seq<Event>)
    requires Inv(cfg, r) && !Has(facts, MatchEntered)
    ensures
      var p := Prepare(cfg, r, s, facts);
      && CurrentRoundSupplement(cfg, p, s.relativeUs) == !Skips(cfg, r, s, facts)
      && ClutchFaithful(p) == ((if Has(facts, RoundStarted) then None else r.opponents) == ClutchLeft(r, s, facts))
  {
    hide Has, Prepare, TeamAfter, AliveAfter, PerspectiveForTeam, ValidTeamCounts, OwnTotal, EnemyTotal, OwnAlive, EnemyAlive, WithinTotal,
         Seen, ClutchHolds;
    PrepareFields(cfg, r, s, facts);
    PrepareInv(cfg, r, s, facts);
    ClutchHoldsExactly(cfg, Prepare(cfg, r, s, facts));
  }

  lemma PacketEntered(cfg: Config, r: Resolver, s: GameState, facts: seq<Event>)
    requires Has(facts, MatchEntered)
    ensures ClutchFaithful(Prepare(cfg, r, s, facts)) && Prepare(cfg, r, s, facts).supplement.None?
  {
    hide Has, LifecycleOf;
  }

  lemma UncountedClutch(r: Resolver)
    ensures ClutchFaithful(WithoutCounts(r)) == ClutchFaithful(r)
  {
    hide PerspectiveForTeam;
  }

  /** Exactly when the flag, the opponents and the context are right after a packet. */
  lemma PacketClutchExactly(cfg: Config, r: Resolver, s: GameState, facts: seq<Event>)
    requires Inv(cfg, r)
    ensures ClutchFaithful(ProcessGsi(cfg, r, s, facts).0) <==> ReadsEvidence(cfg, r, s, facts)
  {
    var p := Prepare(cfg, r, s, facts);
    var e := Evaluate(cfg, p, s.relativeUs).0;
    PrepareInv(cfg, r, s, facts);
    EvaluateInv(cfg, p, s.relativeUs);
    CloseInv(cfg, e, s.relativeUs, facts);
    UncountedClutch(p);
    RoundOverCloses(facts);
    if Has(facts, MatchEntered) {
      PacketEntered(cfg, r, s, facts);
    } else {
      PreparedClutch(cfg, r, s, facts);
    }
    hide Prepare, Interpret, Has, ClosesRound, RoundOver, Inv, ClutchFaithful, ClutchLeft, Skips, WithoutCounts, Observe;
  }

  /** And after a supplement: once one is accepted, always; one that is refused changes nothing. */
  lemma SupplementClutchExactly(cfg: Config, r: Resolver, snap: Snapshot)
    requires Inv(cfg, r)
    ensures ClutchFaithful(ProcessSupplement(cfg, r, snap).0) <==> Accepts(r, snap) || ClutchFaithful(r)
  {
    if Accepts(r, snap) {
      var a := Accepted(r, snap);
      AcceptInv(cfg, r, snap);
      if a.latest.None? {
        assert ClutchFaithful(a);
      } else {
        hide Interpret, Inv, ClutchFaithful, ValidTeamCounts, Observe;
        InterpretInv(cfg, a, snap, snap.relativeUs);
      }
    }
  }

  /** What the history says: the last packet or accepted supplement read the evidence right. */
  predicate EvidenceRead(cfg: Config, ins: seq<Input>, n: nat)
    requires n <= |ins|
  {
    n == 0 ||
    match ins[n - 1]
    case Packet(s, facts) => ReadsEvidence(cfg, Before(cfg, ins, n - 1), s, facts)
    case Counts(snap) => Accepts(Before(cfg, ins, n - 1), snap) || EvidenceRead(cfg, ins, n - 1)
  }

  /** In every history: the clutch flag, the opponents and the context are the declarative
      predicate if and only if the evidence was read right last. */
  lemma {:induction false} ClutchExactly(cfg: Config, ins: seq<Input>, n: nat)
    requires n <= |ins|
    ensures ClutchFaithful(Before(cfg, ins, n)) <==> EvidenceRead(cfg, ins, n)
  {
    hide ProcessGsi, ProcessSupplement, Inv, ClutchFaithful, ReadsEvidence, Accepts;
    if n == 0 {
      InitialInv(cfg);
    } else {
      var r := Before(cfg, ins, n - 1);
      ReachableInv(cfg, ins, n - 1);
      match ins[n - 1]
      case Packet(s, facts) => PacketClutchExactly(cfg, r, s, facts);
      case Counts(snap) =>
        ClutchExactly(cfg, ins, n - 1);
        SupplementClutchExactly(cfg, r, snap);
    }
  }

  /** Is the supplement at hand usable when this packet is evaluated? */
  predicate Timely(cfg: Config, r: Resolver, i: Input) {
    i.Packet? && !Has(i.facts, MatchEntered) && r.supplement.Some? ==>
      FreshAt(cfg, r.supplement.value, i.state.relativeUs)
  }

  lemma TimelyReads(cfg: Config, r: Resolver, s: GameState, facts: seq<Event>)
    requires Inv(cfg, r) && Timely(cfg, r, Packet(s, facts))
    ensures ReadsEvidence(cfg, r, s, facts)
  {
    hide Has, RoundOver, PerspectiveForTeam, ValidTeamCounts, OwnAlive, EnemyAlive;
  }

  lemma ClutchStep(cfg: Config, r: Resolver, i: Input)
    requires Inv(cfg, r) && Timely(cfg, r, i)
    requires i.Counts? ==> ClutchFaithful(r)
    ensures ClutchFaithful(Step(cfg, r, i).0)
  {
    hide Inv, ClutchFaithful, ReadsEvidence, Timely, ProcessGsi, ProcessSupplement, Accepts;
    match i
    case Packet(s, facts) =>
      TimelyReads(cfg, r, s, facts);
      PacketClutchExactly(cfg, r, s, facts);
    case Counts(snap) => SupplementClutchExactly(cfg, r, snap);
  }

  /** In every history whose packets are timely, the clutch flag is the declarative predicate. */
  lemma {:induction false} ClutchRefinement(cfg: Config, ins: seq<Input>, n: nat)
    requires n <= |ins|
    requires forall k :: 0 <= k < n ==> Timely(cfg, Before(cfg, ins, k), ins[k])
    ensures ClutchFaithful(Before(cfg, ins, n))
  {
    hide Step, Inv, ClutchFaithful, Timely;
    InitialInv(cfg);
    if n > 0 {
      ClutchRefinement(cfg, ins, n - 1);
      ReachableInv(cfg, ins, n - 1);
      ClutchStep(cfg, Before(cfg, ins, n - 1), ins[n - 1]);
    }
  }

  // ----- The clutch trace -----

  /** Factual batches: no semantic kinds. */
  predicate Factual(facts: seq<Event>) {
    forall e :: e in facts ==> e.kind !in {Ace, ClutchStarted, ClutchUpdated, ClutchEnded}
  }

  predicate FactualInput(i: Input) { i.Packet? ==> Factual(i.facts) }

  /** What a consumer sees of one step: the facts, then the semantic events. */
  function Visible(cfg: Config, r: Resolver, i: Input): seq<Event> {
    (if i.Packet? then i.facts else []) + Step(cfg, r, i).1
  }

  function VisibleTrace(cfg: Config, ins: seq<Input>, n: nat): seq<Event>
    requires n <= |ins|
  {
    if n == 0 then []
    else VisibleTrace(cfg, ins, n - 1) + Visible(cfg, Before(cfg, ins, n - 1), ins[n - 1])
  }

  datatype ClutchTrace = Idle | Engaged(enemies: int) | BrokenClutch

  /** (Started Updated* Ended)*, where a round start or a match entry may cut a clutch short;
      values are positive, consecutive values differ and chain through the two texts. */
  function ClutchDelta(q: ClutchTrace, e: Event): ClutchTrace {
    if q == BrokenClutch then BrokenClutch
    else match e.kind
      case RoundStarted => Idle
      case MatchEntered => Idle
      case ClutchStarted =>
        if q == Idle && e.value.Some? && e.value.value >= 1 then Engaged(e.value.value) else BrokenClutch
      case ClutchUpdated =>
        if q.Engaged? && e.value.Some? && 1 <= e.value.value != q.enemies
           && e.before == IntText(q.enemies) && e.after == IntText(e.value.value)
        then Engaged(e.value.value) else BrokenClutch
      case ClutchEnded => if q.Engaged? && e.value == Some(q.enemies) then Idle else BrokenClutch
      case _ => q
  }

  function ClutchTraceOf(r: Resolver): ClutchTrace {
    if r.clutch && r.opponents.Some? then Engaged(r.opponents.value) else Idle
  }

  lemma {:induction false} ClutchFacts(q: ClutchTrace, facts: seq<Event>)
    requires q != BrokenClutch
    requires forall e :: e in facts ==> e.kind !in {Ace, ClutchStarted, ClutchUpdated, ClutchEnded}
    ensures Fold(ClutchDelta, q, facts) ==
      if Has(facts, RoundStarted) || Has(facts, MatchEntered) then Idle else q
    decreases |facts|
  {
    if facts != [] {
      var q' := ClutchDelta(q, facts[0]);
      ClutchFacts(q', facts[1..]);
      assert facts == [facts[0]] + facts[1..];
      HasConcat([facts[0]], facts[1..], RoundStarted);
      HasConcat([facts[0]], facts[1..], MatchEntered);
      assert Has([facts[0]], RoundStarted) == (facts[0].kind == RoundStarted) by { assert facts[0] in [facts[0]]; }
      assert Has([facts[0]], MatchEntered) == (facts[0].kind == MatchEntered) by { assert facts[0] in [facts[0]]; }
    }
  }

  lemma ClutchEndTrace(cfg: Config, r: Resolver, us: nat)
    requires Inv(cfg, r)
    ensures
      var (r', events) := ClutchEnd(r, us);
      Fold(ClutchDelta, ClutchTraceOf(r), events) == ClutchTraceOf(r') == Idle
  {
  }

  lemma EvaluateClutchTrace(cfg: Config, r: Resolver, us: nat)
    requires Inv(cfg, r)
    ensures
      var (r', events) := EvaluateClutch(r, us);
      Fold(ClutchDelta, ClutchTraceOf(r), events) == ClutchTraceOf(r')
  {
    hide PerspectiveForTeam, ValidTeamCounts, IntText;
    ClutchEndTrace(cfg, r, us);
    var events := EvaluateClutch(r, us).1;
    if ClutchEvaluable(r) {
      var view := Seen(r, r.supplement.value);
      if view.Some? && ClutchNow(r, view.value) && events != [] {
        FoldOne(ClutchDelta, ClutchTraceOf(r), events[0]);
      }
    }
  }

  lemma InterpretTrace(cfg: Config, r: Resolver, snap: Snapshot, us: nat)
    requires Inv(cfg, r)
    ensures
      var (r', events) := Interpret(cfg, r, snap, us);
      Fold(ClutchDelta, ClutchTraceOf(r), events) == ClutchTraceOf(r')
  {
    hide Observe, EvaluateClutch, EvaluateAce, AceProven, Inv;
    var o := Observe(r, snap);
    ObserveInv(cfg, r, snap);
    EvaluateClutchTrace(cfg, o, us);
    var c := EvaluateClutch(o, us);
    EvaluateAceInv(cfg, c.0, us);
    var ace := EvaluateAce(cfg, c.0, us).1;
    FoldConcat(ClutchDelta, ClutchTraceOf(r), c.1, ace);
    FoldSkip(ClutchDelta, ClutchTraceOf(c.0), ace);
  }

  lemma PrepareTrace(cfg: Config, r: Resolver, s: GameState, facts: seq<Event>)
    requires Inv(cfg, r)
    ensures ClutchTraceOf(Prepare(cfg, r, s, facts)) ==
      if Has(facts, RoundStarted) || Has(facts, MatchEntered) then Idle else ClutchTraceOf(r)
  {
  }

  lemma EvaluateTrace(cfg: Config, r: Resolver, us: nat)
    requires Inv(cfg, r)
    ensures Fold(ClutchDelta, ClutchTraceOf(r), Evaluate(cfg, r, us).1) == ClutchTraceOf(Evaluate(cfg, r, us).0)
  {
    if CurrentRoundSupplement(cfg, r, us) {
      hide Interpret;
      InterpretTrace(cfg, r, r.supplement.value, us);
    }
  }

  lemma CloseTrace(cfg: Config, r: Resolver, us: nat, facts: seq<Event>)
    requires Inv(cfg, r)
    ensures Fold(ClutchDelta, ClutchTraceOf(r), Close(r, us, facts).1) == ClutchTraceOf(Close(r, us, facts).0)
  {
    hide Has, ClosesRound;
    ClutchEndTrace(cfg, r, us);
  }

  lemma ClutchTraceStep(cfg: Config, r: Resolver, i: Input)
    requires Inv(cfg, r) && FactualInput(i)
    ensures Fold(ClutchDelta, ClutchTraceOf(r), Visible(cfg, r, i)) == ClutchTraceOf(Step(cfg, r, i).0)
  {
    match i
    case Packet(s, facts) =>
      hide Prepare, Evaluate, Close, Inv, ClutchTraceOf, ClutchDelta, Fold, Has;
      PrepareInv(cfg, r, s, facts);
      var p := Prepare(cfg, r, s, facts);
      EvaluateInv(cfg, p, s.relativeUs);
      var (e, evaluated) := Evaluate(cfg, p, s.relativeUs);
      var closing := Close(e, s.relativeUs, facts).1;
      ClutchTraceSound(r);
      ClutchFacts(ClutchTraceOf(r), facts);
      PrepareTrace(cfg, r, s, facts);
      EvaluateTrace(cfg, p, s.relativeUs);
      CloseTrace(cfg, e, s.relativeUs, facts);
      FoldConcat(ClutchDelta, ClutchTraceOf(r), facts, evaluated + closing);
      FoldConcat(ClutchDelta, ClutchTraceOf(p), evaluated, closing);
    case Counts(snap) =>
      if Accepts(r, snap) {
        AcceptInv(cfg, r, snap);
        hide Interpret, Inv;
        InterpretTrace(cfg, Accepted(r, snap), snap, snap.relativeUs);
      }
      assert [] + Step(cfg, r, i).1 == Step(cfg, r, i).1;
  }

  lemma ClutchTraceSound(r: Resolver)
    ensures ClutchTraceOf(r) != BrokenClutch
  {
  }

  /** Unconditionally, for every history: the clutch grammar, ending where the flag says. */
  lemma {:induction false} ClutchGrammar(cfg: Config, ins: seq<Input>, n: nat)
    requires n <= |ins|
    requires forall k :: 0 <= k < n ==> FactualInput(ins[k])
    ensures Fold(ClutchDelta, Idle, VisibleTrace(cfg, ins, n)) == ClutchTraceOf(Before(cfg, ins, n)) != BrokenClutch
  {
    hide Step, Inv, FactualInput, Visible, ClutchDelta;
    if n > 0 {
      ClutchGrammar(cfg, ins, n - 1);
      ReachableInv(cfg, ins, n - 1);
      var r := Before(cfg, ins, n - 1);
      ClutchTraceStep(cfg, r, ins[n - 1]);
      FoldConcat(ClutchDelta, Idle, VisibleTrace(cfg, ins, n - 1), Visible(cfg, r, ins[n - 1]));
    }
  }

  // ----- No clutch after a round has ended -----

  predicate RoundClosed(r: Resolver) { r.ended || !r.knownStart }

  lemma InterpretClosed(cfg: Config, r: Resolver, snap: Snapshot, us: nat)
    requires Inv(cfg, r) && RoundClosed(r)
    ensures forall e :: e in Interpret(cfg, r, snap, us).1 ==> e.kind != ClutchStarted
  {
  }

  lemma EvaluateClosed(cfg: Config, r: Resolver, us: nat)
    requires Inv(cfg, r) && RoundClosed(r)
    ensures RoundClosed(Evaluate(cfg, r, us).0)
    ensures forall e :: e in Evaluate(cfg, r, us).1 ==> e.kind != ClutchStarted
  {
    hide Interpret, Inv, Observe, ClutchFaithful;
    EvaluateInv(cfg, r, us);
    if CurrentRoundSupplement(cfg, r, us) {
      InterpretClosed(cfg, r, r.supplement.value, us);
    }
  }

  lemma PrepareClosed(cfg: Config, r: Resolver, s: GameState, facts: seq<Event>)
    requires RoundClosed(r) && !Has(facts, RoundStarted)
    ensures RoundClosed(Prepare(cfg, r, s, facts))
  {
  }

  lemma CloseClosed(r: Resolver, us: nat, facts: seq<Event>)
    requires RoundClosed(r)
    ensures RoundClosed(Close(r, us, facts).0)
    ensures forall e :: e in Close(r, us, facts).1 ==> e.kind != ClutchStarted
  {
  }

  lemma ClosedStep(cfg: Config, r: Resolver, i: Input)
    requires Inv(cfg, r) && RoundClosed(r)
    requires i.Packet? ==> !Has(i.facts, RoundStarted)
    ensures RoundClosed(Step(cfg, r, i).0)
    ensures forall e :: e in Step(cfg, r, i).1 ==> e.kind != ClutchStarted
  {
    match i
    case Packet(s, facts) =>
      hide Prepare, Evaluate, Close, Inv, RoundClosed, Has;
      var p := Prepare(cfg, r, s, facts);
      PrepareInv(cfg, r, s, facts);
      PrepareClosed(cfg, r, s, facts);
      EvaluateClosed(cfg, p, s.relativeUs);
      CloseClosed(Evaluate(cfg, p, s.relativeUs).0, s.relativeUs, facts);
    case Counts(snap) =>
      if Accepts(r, snap) {
        AcceptInv(cfg, r, snap);
        hide Interpret, Inv, Observe, ClutchFaithful, ValidTeamCounts;
        InterpretInv(cfg, Accepted(r, snap), snap, snap.relativeUs);
        InterpretClosed(cfg, Accepted(r, snap), snap, snap.relativeUs);
      }
  }

  lemma EndClosesRound(cfg: Config, r: Resolver, i: Input)
    requires i.Packet? && ClosesRound(i.facts)
    ensures RoundClosed(Step(cfg, r, i).0)
  {
  }

  lemma LeaveCloses(facts: seq<Event>)
    ensures Has(facts, MatchLeft) ==> ClosesRound(facts)
  {
  }

  /** From the batch after ROUND_ENDED (or GAME_OVER, or MATCH_LEFT) until the next
      ROUND_STARTED no clutch starts. */
  lemma {:induction false} NoClutchAfterRoundEnd(cfg: Config, ins: seq<Input>, i: nat, n: nat)
    requires i < n < |ins|
    requires ins[i].Packet? && RoundOver(ins[i].facts)
    requires forall k :: i < k <= n && ins[k].Packet? ==> !Has(ins[k].facts, RoundStarted)
    ensures RoundClosed(Before(cfg, ins, n)) && RoundClosed(Before(cfg, ins, n + 1))
    ensures forall e :: e in EmittedAt(cfg, ins, n) ==> e.kind != ClutchStarted
  {
    hide Step, Inv, RoundClosed, ClosesRound, RoundOver, Has;
    RoundOverCloses(ins[i].facts);
    if n == i + 1 {
      EndClosesRound(cfg, Before(cfg, ins, i), ins[i]);
    } else {
      NoClutchAfterRoundEnd(cfg, ins, i, n - 1);
    }
    ReachableInv(cfg, ins, n);
    ClosedStep(cfg, Before(cfg, ins, n), ins[n]);
  }

  // ----- The context never shows evidence from before the round -----

  predicate Exposes(r: Resolver) {
    r.context.supplementAvailable || r.context.counts != NO_COUNTS || r.context.aliveDelta.Some?
  }

  /** Whatever is shown is the latest supplement's. */
  predicate ExposesLatest(r: Resolver) {
    Exposes(r) ==>
      r.latest.Some? && r.supplement.Some? && r.context.supplementUs == r.supplement.value.relativeUs
  }

  /** Counts observed before the known round start are on show. */
  predicate ShowsOld(r: Resolver) { Exposes(r) && r.knownStart && r.context.supplementUs < r.startUs }

  predicate ExposesCurrentRound(r: Resolver) { ExposesLatest(r) && !ShowsOld(r) }

  /** Interpreting a snapshot shows its counts exactly when the local team sees them. */
  lemma InterpretExposes(cfg: Config, r: Resolver, snap: Snapshot, us: nat)
    ensures
      var j := Interpret(cfg, r, snap, us).0;
      && Exposes(j) == Seen(r, snap).Some? && j.context.supplementUs == snap.relativeUs
      && j.knownStart == r.knownStart && j.startUs == r.startUs && j.latest == r.latest && j.supplement == r.supplement
  {
    var o := Observe(r, snap);
    ObserveExposes(r, snap);
    hide Observe, EvaluateAce, EvaluateClutch, Seen, AceProven;
    ClutchFrame(o, us);
    EvaluateAceInv(cfg, EvaluateClutch(o, us).0, us);
  }

  lemma ObserveExposes(r: Resolver, snap: Snapshot)
    ensures
      var o := Observe(r, snap);
      && Exposes(o) == Seen(r, snap).Some? && o.context.supplementUs == snap.relativeUs
      && o == r.(context := o.context, churned := o.churned)
  {
    hide Seen, Contradicts;
  }

  /** No packet ever ends with old counts on show, whatever its time. */
  lemma PacketShowsNothingOld(cfg: Config, r: Resolver, s: GameState, facts: seq<Event>)
    requires Inv(cfg, r)
    ensures ExposesCurrentRound(ProcessGsi(cfg, r, s, facts).0)
  {
    PrepareInv(cfg, r, s, facts);
    hide Prepare, Interpret, Close, Inv, Seen, FreshAt;
    var p := Prepare(cfg, r, s, facts);
    if CurrentRoundSupplement(cfg, p, s.relativeUs) {
      InterpretExposes(cfg, p, p.supplement.value, s.relativeUs);
    }
    CloseExposes(Evaluate(cfg, p, s.relativeUs).0, s.relativeUs, facts);
  }

  lemma CloseExposes(r: Resolver, us: nat, facts: seq<Event>)
    requires ExposesCurrentRound(r)
    ensures ExposesCurrentRound(Close(r, us, facts).0)
  {
    hide Has, ClosesRound;
  }

  /** An accepted supplement does exactly when it precedes the known start and the local team
      sees it; a refused one leaves what was shown. */
  lemma SupplementShowsOldExactly(cfg: Config, r: Resolver, snap: Snapshot)
    requires Inv(cfg, r) && ExposesLatest(r)
    ensures ExposesLatest(ProcessSupplement(cfg, r, snap).0)
    ensures ShowsOld(ProcessSupplement(cfg, r, snap).0) <==>
      if Accepts(r, snap) then r.latest.Some? && r.knownStart && snap.relativeUs < r.startUs && Playing(r.team)
      else ShowsOld(r)
  {
    var a := Accepted(r, snap);
    if r.team.Some? {
      PerspectiveExactly(snap.teams, r.team.value);
    }
    hide Interpret, ValidTeamCounts, PerspectiveForTeam;
    assert Seen(a, snap) == Seen(r, snap);
    assert Accepts(r, snap) ==> Seen(r, snap).Some? == Playing(r.team);
    hide Seen, Accepts;
    InterpretExposes(cfg, a, snap, snap.relativeUs);
  }

  /** One of the two teams. */
  predicate Playing(team: Option<string>) { team == Some("CT") || team == Some("T") }

  /** What the history says: the last accepted supplement after the last packet was too old. */
  predicate OldSupplementLast(cfg: Config, ins: seq<Input>, n: nat)
    requires n <= |ins|
  {
    n > 0 &&
    match ins[n - 1]
    case Packet(_, _) => false
    case Counts(snap) =>
      var r := Before(cfg, ins, n - 1);
      if Accepts(r, snap) then r.latest.Some? && r.knownStart && snap.relativeUs < r.startUs && Playing(r.team)
      else OldSupplementLast(cfg, ins, n - 1)
  }

  /** In every history: counts from before the known round start are on show if and only if
      such a supplement was accepted last. */
  lemma {:induction false} OldCountsExactly(cfg: Config, ins: seq<Input>, n: nat)
    requires n <= |ins|
    ensures ExposesLatest(Before(cfg, ins, n))
    ensures ShowsOld(Before(cfg, ins, n)) <==> OldSupplementLast(cfg, ins, n)
  {
    hide ProcessGsi, ProcessSupplement, Inv, Accepts, Playing, ExposesLatest, ShowsOld;
    if n == 0 {
      NothingShown();
    } else {
      var r := Before(cfg, ins, n - 1);
      ReachableInv(cfg, ins, n - 1);
      OldCountsExactly(cfg, ins, n - 1);
      match ins[n - 1]
      case Packet(s, facts) => PacketShowsNothingOld(cfg, r, s, facts);
      case Counts(snap) => SupplementShowsOldExactly(cfg, r, snap);
    }
  }

  lemma NothingShown()
    ensures ExposesLatest(INITIAL) && !ShowsOld(INITIAL) && StartedBefore(INITIAL)
  {
  }

  /** The round started no later than the latest packet. */
  predicate StartedBefore(r: Resolver) {
    r.knownStart && r.latest.Some? ==> r.startUs <= r.latest.value.relativeUs
  }

  /** GSI time does not go back within a match. */
  predicate InOrder(r: Resolver, i: Input) {
    i.Packet? && r.latest.Some? ==> r.latest.value.relativeUs <= i.state.relativeUs
  }

  lemma PrepareStart(cfg: Config, r: Resolver, s: GameState, facts: seq<Event>)
    requires Inv(cfg, r) && StartedBefore(r) && InOrder(r, Packet(s, facts))
    ensures StartedBefore(Prepare(cfg, r, s, facts))
  {
    hide Has, Seen, LifecycleOf;
  }

  lemma StartedStep(cfg: Config, r: Resolver, i: Input)
    requires Inv(cfg, r) && StartedBefore(r) && InOrder(r, i)
    ensures StartedBefore(Step(cfg, r, i).0)
  {
    match i
    case Packet(s, facts) =>
      PrepareInv(cfg, r, s, facts);
      PrepareStart(cfg, r, s, facts);
      hide Prepare, Evaluate, Inv, Has, ClosesRound, InOrder, Observe, ClutchFaithful;
      EvaluateInv(cfg, Prepare(cfg, r, s, facts), s.relativeUs);
    case Counts(snap) =>
      hide Interpret, Inv, Accepts, Seen;
      InterpretExposes(cfg, Accepted(r, snap), snap, snap.relativeUs);
  }

  /** With non-decreasing GSI times no accepted supplement precedes the round, so the context
      only ever shows counts of the current round. */
  lemma {:induction false} ContextShowsCurrentRound(cfg: Config, ins: seq<Input>, n: nat)
    requires n <= |ins|
    requires forall k :: 0 <= k < n ==> InOrder(Before(cfg, ins, k), ins[k])
    ensures ExposesCurrentRound(Before(cfg, ins, n)) && StartedBefore(Before(cfg, ins, n))
  {
    hide Step, Inv, InOrder, ShowsOld, ExposesLatest, Playing, ValidTeamCounts;
    NothingShown();
    OldCountsExactly(cfg, ins, n);
    if n > 0 {
      ContextShowsCurrentRound(cfg, ins, n - 1);
      OldCountsExactly(cfg, ins, n - 1);
      ReachableInv(cfg, ins, n - 1);
      hide StartedBefore;
      StartedStep(cfg, Before(cfg, ins, n - 1), ins[n - 1]);
      NothingPrecedesStart(cfg, ins, n);
    }
  }

  lemma NothingPrecedesStart(cfg: Config, ins: seq<Input>, n: nat)
    requires 0 < n <= |ins| && StartedBefore(Before(cfg, ins, n - 1)) && !OldSupplementLast(cfg, ins, n - 1)
    ensures !OldSupplementLast(cfg, ins, n)
  {
    hide Before, Playing, ValidTeamCounts;
  }
}
