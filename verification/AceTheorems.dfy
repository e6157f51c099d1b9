/** ACE is confirmed exactly when the whole round's history supports it. */
module AceTheorems {
  import opened Telemetry
  import opened SupplementaryCounts
  import opened SemanticResolution
  import opened ResolverTheorems

  // ----- Reading a history -----

  /** The state in which input `n` was judged: after the evidence was evaluated,
      before a round or match end is applied. */
  function Judged(cfg: Config, ins: seq<Input>, n: nat): Resolver
    requires n < |ins|
  {
    match ins[n]
    case Packet(s, facts) => Evaluate(cfg, Prepare(cfg, Before(cfg, ins, n), s, facts), s.relativeUs).0
    case Counts(snap) => Step(cfg, Before(cfg, ins, n), ins[n]).0
  }

  /** Was a snapshot weighed at input `n`? It is then the latest one. */
  predicate ObservesAt(cfg: Config, ins: seq<Input>, n: nat)
    requires n < |ins|
  {
    var r := Before(cfg, ins, n);
    match ins[n]
    case Packet(s, facts) => !Has(facts, MatchEntered) && !Skips(cfg, r, s, facts)
    case Counts(snap) => Accepts(r, snap) && r.latest.Some?
  }

  lemma ObservesPacket(cfg: Config, r: Resolver, s: GameState, facts: seq<Event>)
    requires Inv(cfg, r)
    ensures CurrentRoundSupplement(cfg, Prepare(cfg, r, s, facts), s.relativeUs) <==>
      !Has(facts, MatchEntered) && !Skips(cfg, r, s, facts)
  {
    if Has(facts, MatchEntered) {
      PacketEntered(cfg, r, s, facts);
    } else {
      PreparedClutch(cfg, r, s, facts);
    }
    hide Prepare, Has, Inv, Skips, ClutchFaithful, FreshAt;
  }

  predicate StartsRound(i: Input) { i.Packet? && Has(i.facts, RoundStarted) }

  predicate CutsRound(i: Input) { i.Packet? && (Has(i.facts, RoundStarted) || Has(i.facts, MatchEntered)) }

  predicate LeavesMatch(i: Input) { i.Packet? && Has(i.facts, MatchLeft) }

  /** Inputs `a..n` belong to the round that started at `a`. */
  predicate RoundSpan(ins: seq<Input>, a: nat, n: nat) {
    && a <= n < |ins| && StartsRound(ins[a])
    && (forall k :: a < k <= n ==> !CutsRound(ins[k]))
    && (forall k :: a <= k < n ==> !LeavesMatch(ins[k]))
  }

  /** The enemies of a team that plays, in total and alive. */
  function Enemies(team: Option<string>, t: TeamCounts): Option<int> {
    if team == Some("CT") then t.tTotal else if team == Some("T") then t.ctTotal else None
  }

  function EnemiesAlive(team: Option<string>, t: TeamCounts): Option<int> {
    if team == Some("CT") then t.tAlive else if team == Some("T") then t.ctAlive else None
  }

  lemma EnemiesSeen(r: Resolver, snap: Snapshot)
    requires ValidTeamCounts(snap.teams)
    ensures Seen(r, snap).Some? == Playing(r.team)
    ensures Seen(r, snap).Some? ==>
      Seen(r, snap).value.enemyTotal == Enemies(r.team, snap.teams)
      && Seen(r, snap).value.enemyAlive == EnemiesAlive(r.team, snap.teams)
    ensures !Playing(r.team) ==> Enemies(r.team, snap.teams).None? && EnemiesAlive(r.team, snap.teams).None?
  {
    if r.team.Some? {
      PerspectiveExactly(snap.teams, r.team.value);
    }
    hide PerspectiveForTeam, ValidTeamCounts;
  }

  /** The enemy total and roster revision that the latest snapshot offers, if it is
      fresh and says enough, for the current local team. */
  function Offered(cfg: Config, r: Resolver, us: nat): Option<(int, Option<nat>)> {
    if r.supplement.None? || r.supplement.value.relativeUs > us
       || (cfg.maxAgeUs.Some? && r.supplement.value.relativeUs + cfg.maxAgeUs.value < us) then None
    else
      var snap := r.supplement.value;
      var total := Enemies(r.team, snap.teams);
      if total.Some? && (cfg.requireRevision ==> snap.rosterRevision.Some?)
      then Some((total.value, snap.rosterRevision)) else None
  }

  /** What was known when the round started. */
  function Baseline(cfg: Config, ins: seq<Input>, a: nat): Option<(int, Option<nat>)>
    requires a < |ins| && ins[a].Packet?
  {
    Offered(cfg, Judged(cfg, ins, a), ins[a].state.relativeUs)
  }

  /** The snapshot weighed at input `k` does not contradict the baseline for the then-local team. */
  predicate AgreesAt(cfg: Config, ins: seq<Input>, k: nat, total: int, revision: Option<nat>)
    requires k < |ins|
  {
    var r := Judged(cfg, ins, k);
    r.supplement.Some? && Playing(r.team) ==>
      && (Enemies(r.team, r.supplement.value.teams).Some? ==> Enemies(r.team, r.supplement.value.teams).value == total)
      && (revision.Some? && r.supplement.value.rosterRevision.Some? ==> r.supplement.value.rosterRevision == revision)
  }

  predicate AllAgree(cfg: Config, ins: seq<Input>, a: nat, n: nat, total: int, revision: Option<nat>)
    requires n < |ins|
  {
    forall k :: a <= k <= n && ObservesAt(cfg, ins, k) ==> AgreesAt(cfg, ins, k, total, revision)
  }

  predicate AceBetween(cfg: Config, ins: seq<Input>, a: nat, n: nat)
    requires n <= |ins|
  {
    exists k :: a <= k < n && Has(EmittedAt(cfg, ins, k), Ace)
  }

  /** The evidence at hand shows every enemy dead and as many kills as there were enemies, in a mode with rounds. */
  predicate AllDown(r: Resolver, start: nat, total: int, revision: Option<nat>) {
    && r.latest.Some? && r.latest.value.mapMode in {Some("competitive"), Some("casual"), Some("retakes")}
    && r.latest.value.roundKills == Some(total)
    && r.supplement.Some? && r.supplement.value.relativeUs >= start
    && (revision.Some? ==> r.supplement.value.rosterRevision == revision)
    && EnemiesAlive(r.team, r.supplement.value.teams) == Some(0)
    && Enemies(r.team, r.supplement.value.teams) == Some(total)
  }

  /** Everything the documentation asks for before an ace may be confirmed at input `n`. */
  predicate Certificate(cfg: Config, ins: seq<Input>, a: nat, n: nat) {
    && RoundSpan(ins, a, n)
    && Baseline(cfg, ins, a).Some?
    && var (total, revision) := Baseline(cfg, ins, a).value;
       && AllAgree(cfg, ins, a, n, total, revision)
       && !AceBetween(cfg, ins, a, n)
       && AllDown(Judged(cfg, ins, n), ins[a].state.relativeUs, total, revision)
  }

  // ----- The private fields summarize the history -----

  predicate Tracks(cfg: Config, ins: seq<Input>, a: nat, n: nat, r: Resolver)
    requires RoundSpan(ins, a, n)
  {
    && r.knownStart && r.startUs == ins[a].state.relativeUs
    && match Baseline(cfg, ins, a) {
         case None => r.baseTotal.None?
         case Some((total, revision)) =>
           && r.baseTotal == Some(total) && r.baseRevision == revision
           && (r.churned <==> !AllAgree(cfg, ins, a, n, total, revision))
       }
    && (r.aceEmitted <==> AceBetween(cfg, ins, a, n + 1))
  }

  /** The state that evaluation at input `n` starts from. */
  function Presented(cfg: Config, ins: seq<Input>, n: nat): Resolver
    requires n < |ins|
  {
    var r := Before(cfg, ins, n);
    match ins[n]
    case Packet(s, facts) => Prepare(cfg, r, s, facts)
    case Counts(snap) => if Accepts(r, snap) then Accepted(r, snap) else r
  }

  /** What one judgement does to the fields that matter for an ace. */
  lemma JudgedFields(cfg: Config, ins: seq<Input>, n: nat)
    requires n < |ins|
    ensures
      var p, j := Presented(cfg, ins, n), Judged(cfg, ins, n);
      && Inv(cfg, p) && Inv(cfg, j)
      && j == p.(context := j.context, churned := j.churned, aceEmitted := j.aceEmitted,
                 clutch := j.clutch, opponents := j.opponents)
      && (ObservesAt(cfg, ins, n) ==> p.supplement.Some? && p.latest.Some?)
      && j.churned == (p.churned || (ObservesAt(cfg, ins, n) && p.knownStart && p.baseTotal.Some?
                                     && Contradicts(p, p.supplement.value)))
  {
    ReachableInv(cfg, ins, n);
    var r := Before(cfg, ins, n);
    match ins[n]
    case Packet(s, facts) =>
      PrepareInv(cfg, r, s, facts);
      var p := Prepare(cfg, r, s, facts);
      EvaluateInv(cfg, p, s.relativeUs);
      ObservesPacket(cfg, r, s, facts);
      hide Prepare, Evaluate, Inv, Before, WithCounts, Contradicts, Skips, Has;
      if CurrentRoundSupplement(cfg, p, s.relativeUs) {
        RosterChurn(p, p.supplement.value);
      }
    case Counts(snap) =>
      if Accepts(r, snap) {
        AcceptInv(cfg, r, snap);
        hide Interpret, Inv, Before, Contradicts, Observe;
        InterpretInv(cfg, Accepted(r, snap), snap, snap.relativeUs);
        RosterChurn(Accepted(r, snap), snap);
      }
  }

  lemma RosterChurn(r: Resolver, snap: Snapshot)
    ensures Observe(r, snap).churned ==
      (r.churned || (r.knownStart && r.baseTotal.Some? && Contradicts(r, snap)))
  {
  }

  lemma ClutchKinds(r: Resolver, us: nat)
    ensures forall e :: e in EvaluateClutch(r, us).1 || e in ClutchEnd(r, us).1 ==> e.kind != Ace
  {
  }

  lemma CloseKinds(r: Resolver, us: nat, facts: seq<Event>)
    ensures forall e :: e in Close(r, us, facts).1 ==> e.kind != Ace
  {
  }

  lemma InterpretAce(cfg: Config, r: Resolver, snap: Snapshot, us: nat)
    requires Inv(cfg, r)
    ensures
      var (j, events) := Interpret(cfg, r, snap, us);
      && (Has(events, Ace) <==> AceProven(cfg, j.(aceEmitted := r.aceEmitted)))
      && j.aceEmitted == (r.aceEmitted || Has(events, Ace))
      && (forall e :: e in events && e.kind == Ace ==> e.value == r.baseTotal)
  {
    hide Observe, EvaluateClutch, EvaluateAce, AceProven, Inv, Has;
    var o := Observe(r, snap);
    ObserveInv(cfg, r, snap);
    ClutchFrame(o, us);
    ClutchKinds(o, us);
    var (c, clutch) := EvaluateClutch(o, us);
    var (j, ace) := EvaluateAce(cfg, c, us);
    AceOutcome(cfg, c, us);
    assert r.aceEmitted == c.aceEmitted;
    HasConcat(clutch, ace, Ace);
    NoKind(clutch, Ace);
  }

  lemma NoKind(events: seq<Event>, kind: EventKind)
    requires forall e :: e in events ==> e.kind != kind
    ensures !Has(events, kind)
  {
  }

  lemma AceOutcome(cfg: Config, r: Resolver, us: nat)
    ensures
      var (j, events) := EvaluateAce(cfg, r, us);
      && (Has(events, Ace) <==> AceProven(cfg, j.(aceEmitted := r.aceEmitted)))
      && j == r.(aceEmitted := r.aceEmitted || Has(events, Ace))
      && (forall e :: e in events ==> e.value == r.baseTotal)
  {
  }

  lemma EvaluateAceAt(cfg: Config, r: Resolver, us: nat)
    requires Inv(cfg, r)
    ensures
      var (j, events) := Evaluate(cfg, r, us);
      && (Has(events, Ace) <==> CurrentRoundSupplement(cfg, r, us) && AceProven(cfg, j.(aceEmitted := r.aceEmitted)))
      && j.aceEmitted == (r.aceEmitted || Has(events, Ace))
      && (forall e :: e in events && e.kind == Ace ==> e.value == r.baseTotal)
  {
    hide Interpret, AceProven, Inv;
    if CurrentRoundSupplement(cfg, r, us) {
      InterpretAce(cfg, r, r.supplement.value, us);
    }
  }

  /** An ace at input `n` is one successful proof from the evidence judged there. */
  lemma AceFires(cfg: Config, ins: seq<Input>, n: nat)
    requires n < |ins|
    ensures
      var p, j := Presented(cfg, ins, n), Judged(cfg, ins, n);
      && (Has(EmittedAt(cfg, ins, n), Ace) <==>
            ObservesAt(cfg, ins, n) && AceProven(cfg, j.(aceEmitted := p.aceEmitted)))
      && j.aceEmitted == (p.aceEmitted || Has(EmittedAt(cfg, ins, n), Ace))
      && (forall e :: e in EmittedAt(cfg, ins, n) && e.kind == Ace ==> e.value == p.baseTotal)
  {
    ReachableInv(cfg, ins, n);
    var r := Before(cfg, ins, n);
    match ins[n]
    case Packet(s, facts) =>
      PrepareInv(cfg, r, s, facts);
      ObservesPacket(cfg, r, s, facts);
      hide Prepare, Evaluate, Close, Inv, Before, AceProven, CurrentRoundSupplement, Skips;
      var p := Prepare(cfg, r, s, facts);
      EvaluateAceAt(cfg, p, s.relativeUs);
      var (j, events) := Evaluate(cfg, p, s.relativeUs);
      var closing := Close(j, s.relativeUs, facts).1;
      CloseKinds(j, s.relativeUs, facts);
      HasConcat(events, closing, Ace);
    case Counts(snap) =>
      if Accepts(r, snap) {
        AcceptInv(cfg, r, snap);
        hide Interpret, Inv, Before, AceProven;
        InterpretAce(cfg, Accepted(r, snap), snap, snap.relativeUs);
      }
  }

  // ----- From one input of a round to the next -----

  /** The fields that an ace depends on. */
  predicate SameAceFields(a: Resolver, b: Resolver) {
    && a.knownStart == b.knownStart && a.startUs == b.startUs
    && a.baseTotal == b.baseTotal && a.baseRevision == b.baseRevision
    && a.churned == b.churned && a.aceEmitted == b.aceEmitted
  }

  lemma NextPresented(cfg: Config, ins: seq<Input>, n: nat)
    requires 0 < n < |ins|
    requires !LeavesMatch(ins[n - 1]) && !CutsRound(ins[n])
    ensures SameAceFields(Judged(cfg, ins, n - 1), Presented(cfg, ins, n))
  {
    var r, j := Before(cfg, ins, n), Judged(cfg, ins, n - 1);
    assert SameAceFields(j, r) by {
      match ins[n - 1]
      case Packet(s, facts) =>
        hide Prepare, Evaluate, ClosesRound, Has;
        assert r == Close(j, s.relativeUs, facts).0;
      case Counts(snap) =>
    }
    hide Before, Judged;
    match ins[n]
    case Packet(s, facts) => PrepareKeeps(cfg, r, s, facts);
    case Counts(snap) =>
  }

  lemma PrepareKeeps(cfg: Config, r: Resolver, s: GameState, facts: seq<Event>)
    requires !Has(facts, RoundStarted) && !Has(facts, MatchEntered)
    ensures SameAceFields(r, Prepare(cfg, r, s, facts))
  {
  }

  predicate HoldsBaseline(r: Resolver, base: Option<(int, Option<nat>)>) {
    match base
    case None => r.baseTotal.None? && r.baseRevision.None?
    case Some((total, revision)) => r.baseTotal == Some(total) && r.baseRevision == revision
  }

  lemma RoundOpens(cfg: Config, r: Resolver, s: GameState, facts: seq<Event>)
    requires Has(facts, RoundStarted) && (r.supplement.Some? ==> ValidTeamCounts(r.supplement.value.teams))
    ensures
      var p := Prepare(cfg, r, s, facts);
      && p.knownStart && p.startUs == s.relativeUs && !p.churned && !p.aceEmitted
      && HoldsBaseline(p, Offered(cfg, p, s.relativeUs))
  {
    hide Has, WithLocalPlayer, WithLifecycle, INITIAL;
    var r0 := if Has(facts, MatchEntered) then INITIAL else r;
    EntrySupplement();
    KeepsSupplement(r0, s, facts);
    BaselineFixed(cfg, WithLifecycle(WithLocalPlayer(r0, s, facts), s), s);
  }

  lemma EntrySupplement()
    ensures INITIAL.supplement.None?
  {
  }

  lemma KeepsSupplement(r: Resolver, s: GameState, facts: seq<Event>)
    ensures WithLifecycle(WithLocalPlayer(r, s, facts), s).supplement == r.supplement
  {
    hide Has, LifecycleOf;
  }

  lemma BaselineFixed(cfg: Config, r: Resolver, s: GameState)
    requires r.supplement.Some? ==> ValidTeamCounts(r.supplement.value.teams)
    ensures
      var p := WithRoundStart(cfg, r, s);
      && p.knownStart && p.startUs == s.relativeUs && !p.churned && !p.aceEmitted
      && HoldsBaseline(p, Offered(cfg, p, s.relativeUs))
  {
    if r.supplement.Some? {
      EnemiesSeen(Begun(r, s), r.supplement.value);
    }
    hide Seen, Enemies, Playing, ValidTeamCounts;
  }

  lemma OfferedFrame(cfg: Config, a: Resolver, b: Resolver, us: nat)
    requires a.supplement == b.supplement && a.team == b.team
    ensures Offered(cfg, a, us) == Offered(cfg, b, us)
  {
  }

  lemma AgreementIsNoContradiction(cfg: Config, ins: seq<Input>, n: nat, p: Resolver, total: int, revision: Option<nat>)
    requires n < |ins| && p.supplement.Some? && p.baseTotal == Some(total) && p.baseRevision == revision
    requires Judged(cfg, ins, n).supplement == p.supplement && Judged(cfg, ins, n).team == p.team
    requires ValidTeamCounts(p.supplement.value.teams)
    ensures AgreesAt(cfg, ins, n, total, revision) == !Contradicts(p, p.supplement.value)
  {
    EnemiesSeen(p, p.supplement.value);
    hide Seen, Enemies, EnemiesAlive, Judged, ValidTeamCounts, Playing;
  }

  lemma AllAgreeSnoc(cfg: Config, ins: seq<Input>, a: nat, n: nat, total: int, revision: Option<nat>)
    requires a <= n < |ins|
    ensures AllAgree(cfg, ins, a, n, total, revision) <==>
      && (a < n ==> AllAgree(cfg, ins, a, n - 1, total, revision))
      && (ObservesAt(cfg, ins, n) ==> AgreesAt(cfg, ins, n, total, revision))
  {
    hide ObservesAt, AgreesAt;
  }

  lemma AceBetweenSnoc(cfg: Config, ins: seq<Input>, a: nat, n: nat)
    requires a <= n < |ins|
    ensures AceBetween(cfg, ins, a, n + 1) <==> AceBetween(cfg, ins, a, n) || Has(EmittedAt(cfg, ins, n), Ace)
    ensures !AceBetween(cfg, ins, a, a)
  {
  }

  lemma TrackOne(cfg: Config, ins: seq<Input>, a: nat, n: nat)
    requires RoundSpan(ins, a, n)
    requires
      var p := Presented(cfg, ins, n);
      && p.knownStart && p.startUs == ins[a].state.relativeUs
      && HoldsBaseline(p, Baseline(cfg, ins, a))
      && (p.baseTotal.Some? ==>
            (p.churned <==> a < n && !AllAgree(cfg, ins, a, n - 1, p.baseTotal.value, p.baseRevision)))
      && (p.aceEmitted <==> AceBetween(cfg, ins, a, n))
    ensures Tracks(cfg, ins, a, n, Judged(cfg, ins, n))
  {
    JudgedFields(cfg, ins, n);
    AceFires(cfg, ins, n);
    AceBetweenSnoc(cfg, ins, a, n);
    var p, j := Presented(cfg, ins, n), Judged(cfg, ins, n);
    hide Judged, Presented, ObservesAt, EmittedAt, Inv, Baseline, AceProven, AllAgree, AgreesAt, Contradicts, AceBetween, RoundSpan, Has;
    if p.baseTotal.Some? {
      AllAgreeSnoc(cfg, ins, a, n, p.baseTotal.value, p.baseRevision);
      if ObservesAt(cfg, ins, n) {
        AgreementIsNoContradiction(cfg, ins, n, p, p.baseTotal.value, p.baseRevision);
      }
    }
  }

  lemma SpanParts(ins: seq<Input>, a: nat, n: nat)
    requires RoundSpan(ins, a, n)
    ensures a <= n < |ins| && ins[a].Packet? && Has(ins[a].facts, RoundStarted)
    ensures a < n ==> RoundSpan(ins, a, n - 1) && !LeavesMatch(ins[n - 1]) && !CutsRound(ins[n])
  {
  }

  /** What evaluation starts from, at the first input of a round. */
  lemma PresentedFirst(cfg: Config, ins: seq<Input>, a: nat)
    requires a < |ins| && ins[a].Packet? && Has(ins[a].facts, RoundStarted)
    ensures
      var p := Presented(cfg, ins, a);
      && p.knownStart && p.startUs == ins[a].state.relativeUs && !p.churned && !p.aceEmitted
      && HoldsBaseline(p, Baseline(cfg, ins, a))
  {
    ReachableInv(cfg, ins, a);
    RoundOpens(cfg, Before(cfg, ins, a), ins[a].state, ins[a].facts);
    JudgedFields(cfg, ins, a);
    OfferedFrame(cfg, Presented(cfg, ins, a), Judged(cfg, ins, a), ins[a].state.relativeUs);
    hide Judged, ObservesAt, Inv, Offered, Prepare, Before, Has, Contradicts, HoldsBaseline;
  }

  /** At every input of a round the private fields are exactly the history's summary. */
  lemma {:induction false} FieldsTrackHistory(cfg: Config, ins: seq<Input>, a: nat, n: nat)
    requires RoundSpan(ins, a, n)
    ensures Tracks(cfg, ins, a, n, Judged(cfg, ins, n))
    ensures Presented(cfg, ins, n).aceEmitted == AceBetween(cfg, ins, a, n)
    decreases n
  {
    hide RoundSpan, Judged, Presented, ObservesAt, Inv, Baseline, AllAgree, AceBetween, Before, Has, EmittedAt, CutsRound, LeavesMatch;
    SpanParts(ins, a, n);
    AceBetweenSnoc(cfg, ins, a, a);
    if n == a {
      PresentedFirst(cfg, ins, a);
    } else {
      FieldsTrackHistory(cfg, ins, a, n - 1);
      NextPresented(cfg, ins, n);
      BaseNeverPartial(cfg, ins, n - 1);
    }
    TrackOne(cfg, ins, a, n);
  }

  lemma BaseNeverPartial(cfg: Config, ins: seq<Input>, n: nat)
    requires n < |ins|
    ensures Judged(cfg, ins, n).baseTotal.None? ==> Judged(cfg, ins, n).baseRevision.None?
  {
    hide Judged;
    JudgedFields(cfg, ins, n);
  }

  // ----- Main results -----

  /** A known round start means that the history holds one, with nothing cutting it off since. */
  lemma {:induction false} KnownStartHasSource(cfg: Config, ins: seq<Input>, n: nat) returns (a: nat)
    requires n < |ins| && Judged(cfg, ins, n).knownStart
    ensures RoundSpan(ins, a, n)
    decreases n
  {
    hide Judged, Presented, Has, Before, CutsRound, LeavesMatch;
    if StartsRound(ins[n]) {
      a := n;
    } else {
      StartKnown(cfg, ins, n);
      StartSurvives(cfg, ins, n);
      a := KnownStartHasSource(cfg, ins, n - 1);
    }
  }

  lemma StartKnown(cfg: Config, ins: seq<Input>, n: nat)
    requires n < |ins|
    ensures Presented(cfg, ins, n).knownStart == Judged(cfg, ins, n).knownStart
  {
    hide Judged, Presented;
    JudgedFields(cfg, ins, n);
  }

  lemma StartSurvives(cfg: Config, ins: seq<Input>, n: nat)
    requires n < |ins| && Presented(cfg, ins, n).knownStart && !StartsRound(ins[n])
    ensures n > 0 && Judged(cfg, ins, n - 1).knownStart && !LeavesMatch(ins[n - 1]) && !CutsRound(ins[n])
  {
    var r := Before(cfg, ins, n);
    assert r.knownStart && !CutsRound(ins[n]) by {
      hide Before, Has, PerspectiveForTeam;
    }
    assert n > 0;
    hide Presented;
    match ins[n - 1]
    case Packet(s, facts) =>
      hide Prepare, Evaluate, ClosesRound, Has;
      assert r == Close(Judged(cfg, ins, n - 1), s.relativeUs, facts).0;
      LeaveCloses(facts);
    case Counts(snap) =>
  }

  /** ACE is emitted at an input if and only if evidence is weighed there and some round
      of the history carries the full certificate; its value is the baseline total. */
  lemma AceExactly(cfg: Config, ins: seq<Input>, n: nat)
    requires n < |ins|
    ensures Has(EmittedAt(cfg, ins, n), Ace) <==>
      ObservesAt(cfg, ins, n) && exists a :: Certificate(cfg, ins, a, n)
    ensures forall a, e :: Certificate(cfg, ins, a, n) && e in EmittedAt(cfg, ins, n) && e.kind == Ace ==>
      e.value == Some(Baseline(cfg, ins, a).value.0)
  {
    AceFires(cfg, ins, n);
    JudgedFields(cfg, ins, n);
    hide Judged, Presented, ObservesAt, EmittedAt, Inv, Certificate, Has, Contradicts, AceProven;
    var p, j := Presented(cfg, ins, n), Judged(cfg, ins, n);
    var fired := AceProven(cfg, j.(aceEmitted := p.aceEmitted));
    if fired {
      ProvenStart(cfg, j.(aceEmitted := p.aceEmitted));
      var a := KnownStartHasSource(cfg, ins, n);
      AceCertified(cfg, ins, a, n);
      assert Certificate(cfg, ins, a, n);
    }
    if exists a :: Certificate(cfg, ins, a, n) {
      var a :| Certificate(cfg, ins, a, n);
      CertificateSpans(cfg, ins, a, n);
      AceCertified(cfg, ins, a, n);
    }
    forall a | Certificate(cfg, ins, a, n)
      ensures Baseline(cfg, ins, a).Some? && p.baseTotal == Some(Baseline(cfg, ins, a).value.0)
    {
      CertifiedTotal(cfg, ins, a, n);
    }
  }

  lemma ProvenStart(cfg: Config, r: Resolver)
    requires AceProven(cfg, r)
    ensures r.knownStart
  {
  }

  lemma CertificateSpans(cfg: Config, ins: seq<Input>, a: nat, n: nat)
    requires Certificate(cfg, ins, a, n)
    ensures RoundSpan(ins, a, n)
  {
    hide AllAgree, AceBetween, Judged, Baseline;
  }

  lemma RevisionWhenRequired(cfg: Config, ins: seq<Input>, n: nat)
    requires n < |ins|
    ensures
      var j := Judged(cfg, ins, n);
      j.baseTotal.Some? && cfg.requireRevision ==> j.baseRevision.Some?
  {
    hide Judged;
    JudgedFields(cfg, ins, n);
  }

  lemma ModeExactly(mode: Option<string>)
    ensures AceMode(mode) <==> mode in {Some("competitive"), Some("casual"), Some("retakes")}
  {
  }

  lemma JudgedCounts(cfg: Config, ins: seq<Input>, n: nat)
    requires n < |ins|
    ensures
      var r := Judged(cfg, ins, n);
      r.supplement.Some? ==> ValidTeamCounts(r.supplement.value.teams)
  {
    JudgedFields(cfg, ins, n);
    hide Judged, Presented, ObservesAt, Contradicts, ValidTeamCounts;
  }

  /** The resolver's test, with the enemies named by the local team. */
  lemma ProvenExactly(cfg: Config, r: Resolver)
    requires r.supplement.Some? ==> ValidTeamCounts(r.supplement.value.teams)
    requires r.baseTotal.Some? && cfg.requireRevision ==> r.baseRevision.Some?
    ensures AceProven(cfg, r) <==>
      && r.knownStart && r.baseTotal.Some? && !r.churned && !r.aceEmitted
      && AllDown(r, r.startUs, r.baseTotal.value, r.baseRevision)
  {
    if r.latest.Some? {
      ModeExactly(r.latest.value.mapMode);
    }
    if r.supplement.Some? {
      EnemiesSeen(r, r.supplement.value);
    }
    hide Seen, Enemies, EnemiesAlive, Playing, ValidTeamCounts, AceMode;
  }

  lemma AceCertified(cfg: Config, ins: seq<Input>, a: nat, n: nat)
    requires RoundSpan(ins, a, n)
    ensures Certificate(cfg, ins, a, n) <==>
      AceProven(cfg, Judged(cfg, ins, n).(aceEmitted := Presented(cfg, ins, n).aceEmitted))
  {
    hide Judged, Presented, ObservesAt, EmittedAt, Baseline, AllAgree, AceBetween, RoundSpan, CutsRound, LeavesMatch, Before, Has,
         ValidTeamCounts, AceProven, AllDown;
    SpanParts(ins, a, n);
    var j, emitted := Judged(cfg, ins, n), Presented(cfg, ins, n).aceEmitted;
    FieldsTrackHistory(cfg, ins, a, n);
    RevisionWhenRequired(cfg, ins, n);
    JudgedCounts(cfg, ins, n);
    ProvenExactly(cfg, j.(aceEmitted := emitted));
    AllDownFrame(j, emitted);
  }

  lemma AllDownFrame(r: Resolver, emitted: bool)
    ensures forall start, total, revision ::
      AllDown(r.(aceEmitted := emitted), start, total, revision) == AllDown(r, start, total, revision)
  {
  }

  /** Certificates of one input agree on the total. */
  lemma CertifiedTotal(cfg: Config, ins: seq<Input>, a: nat, n: nat)
    requires Certificate(cfg, ins, a, n)
    ensures Presented(cfg, ins, n).baseTotal == Some(Baseline(cfg, ins, a).value.0)
  {
    CertificateSpans(cfg, ins, a, n);
    FieldsTrackHistory(cfg, ins, a, n);
    JudgedFields(cfg, ins, n);
    hide Judged, Presented, ObservesAt, Baseline, AllAgree, AceBetween, Has, Contradicts, Inv;
  }

  /** Two aces are always separated by a round start. */
  lemma AtMostOneAcePerRound(cfg: Config, ins: seq<Input>, i: nat, n: nat)
    requires i < n < |ins|
    requires Has(EmittedAt(cfg, ins, i), Ace) && Has(EmittedAt(cfg, ins, n), Ace)
    ensures exists a :: i < a <= n && StartsRound(ins[a])
  {
    AceExactly(cfg, ins, n);
    hide EmittedAt, Has, Judged, Baseline, AllAgree;
    var a :| Certificate(cfg, ins, a, n);
    assert i < a;
  }

  // ----- The order of a batch -----

  /** Clutch events first, then at most one ace, then at most the end of a clutch. */
  predicate InBatchOrder(events: seq<Event>) {
    forall i, j :: 0 <= i < j < |events| && events[i].kind == Ace ==> events[j].kind == ClutchEnded
  }

  lemma OneAceLast(a: seq<Event>, b: seq<Event>, c: seq<Event>)
    requires (forall k :: 0 <= k < |a| ==> a[k].kind != Ace) && |b| <= 1
    requires forall k :: 0 <= k < |c| ==> c[k].kind == ClutchEnded
    ensures InBatchOrder(a + b + c)
  {
  }

  lemma CloseEnds(r: Resolver, us: nat, facts: seq<Event>)
    ensures forall e :: e in Close(r, us, facts).1 ==> e.kind == ClutchEnded
  {
    hide ClosesRound, Has;
  }

  lemma InterpretOrder(cfg: Config, r: Resolver, snap: Snapshot, us: nat, closing: seq<Event>)
    requires forall e :: e in closing ==> e.kind == ClutchEnded
    ensures InBatchOrder(Interpret(cfg, r, snap, us).1 + closing)
  {
    var o := Observe(r, snap);
    ClutchKinds(o, us);
    hide InBatchOrder, Observe, EvaluateClutch, AceProven, ClutchEnd;
    OneAceLast(EvaluateClutch(o, us).1, EvaluateAce(cfg, EvaluateClutch(o, us).0, us).1, closing);
  }

  lemma PacketOrder(cfg: Config, r: Resolver, s: GameState, facts: seq<Event>)
    ensures InBatchOrder(ProcessGsi(cfg, r, s, facts).1)
  {
    hide InBatchOrder, Prepare, Close, Interpret;
    var p := Prepare(cfg, r, s, facts);
    var e := Evaluate(cfg, p, s.relativeUs).0;
    var closing := Close(e, s.relativeUs, facts).1;
    CloseEnds(e, s.relativeUs, facts);
    if CurrentRoundSupplement(cfg, p, s.relativeUs) {
      InterpretOrder(cfg, p, p.supplement.value, s.relativeUs, closing);
    } else {
      OneAceLast([], [], closing);
      assert [] + [] + closing == [] + closing;
    }
  }

  lemma SupplementOrder(cfg: Config, r: Resolver, snap: Snapshot)
    ensures InBatchOrder(ProcessSupplement(cfg, r, snap).1)
  {
    hide InBatchOrder, Interpret, Accepts;
    var none: seq<Event> := [];
    OneAceLast(none, none, none);
    assert none + none + none == none;
    InterpretOrder(cfg, Accepted(r, snap), snap, snap.relativeUs, []);
    assert Interpret(cfg, Accepted(r, snap), snap, snap.relativeUs).1 + [] ==
      Interpret(cfg, Accepted(r, snap), snap, snap.relativeUs).1;
  }

  lemma BatchesInOrder(cfg: Config, ins: seq<Input>, n: nat)
    requires n < |ins|
    ensures InBatchOrder(EmittedAt(cfg, ins, n))
  {
    hide Before, InBatchOrder, ProcessGsi, ProcessSupplement;
    match ins[n]
    case Packet(s, facts) => PacketOrder(cfg, Before(cfg, ins, n), s, facts);
    case Counts(snap) => SupplementOrder(cfg, Before(cfg, ins, n), snap);
  }
}
