/** The detector and the resolver run together, as the live worker and the offline
    analysis both run them, and what holds of every such run. */
module Spine {
  import opened Telemetry
  import opened Traces
  import opened EventDetection
  import opened DetectorTheorems
  import opened SupplementaryCounts
  import opened SemanticResolution
  import opened ResolverTheorems

  datatype Observation = Reported(state: GameState) | Counted(snap: Snapshot)

  datatype SpineState = SpineState(detector: DetectorMemory, resolver: Resolver)

  const START := SpineState(BLANK, INITIAL)

  /** One observation through both stages; an invalid payload is skipped. */
  function Feed(cfg: Config, sp: SpineState, o: Observation): (SpineState, seq<Event>) {
    match o
    case Reported(s) =>
      if !s.payloadValid then (sp, [])
      else
        var (m, facts) := Detect(sp.detector, s);
        var (r, semantic) := ProcessGsi(cfg, sp.resolver, s, facts);
        (SpineState(m, r), facts + semantic)
    case Counted(snap) =>
      var (r, semantic) := ProcessSupplement(cfg, sp.resolver, snap);
      (sp.(resolver := r), semantic)
  }

  function StateAt(cfg: Config, obs: seq<Observation>, n: nat): SpineState
    requires n <= |obs|
  {
    if n == 0 then START else Feed(cfg, StateAt(cfg, obs, n - 1), obs[n - 1]).0
  }

  function BatchAt(cfg: Config, obs: seq<Observation>, n: nat): seq<Event>
    requires n < |obs|
  {
    Feed(cfg, StateAt(cfg, obs, n), obs[n]).1
  }

  function WholeTrace(cfg: Config, obs: seq<Observation>, n: nat): seq<Event>
    requires n <= |obs|
  {
    if n == 0 then [] else WholeTrace(cfg, obs, n - 1) + BatchAt(cfg, obs, n - 1)
  }

  /** What comes later does not change what came before. */
  lemma {:induction false} PrefixRun(cfg: Config, a: seq<Observation>, b: seq<Observation>, n: nat)
    requires n <= |a|
    ensures StateAt(cfg, a + b, n) == StateAt(cfg, a, n)
    ensures WholeTrace(cfg, a + b, n) == WholeTrace(cfg, a, n)
    ensures n < |a| ==> BatchAt(cfg, a + b, n) == BatchAt(cfg, a, n)
  {
    hide Feed;
    if n > 0 {
      PrefixRun(cfg, a, b, n - 1);
    }
  }

  predicate Sound(cfg: Config, sp: SpineState) {
    Valid(sp.detector) && Inv(cfg, sp.resolver)
  }

  lemma FeedSound(cfg: Config, sp: SpineState, o: Observation)
    requires Sound(cfg, sp)
    ensures Sound(cfg, Feed(cfg, sp, o).0)
  {
    hide Valid, Inv, Detect, ProcessGsi, ProcessSupplement;
    match o
    case Reported(s) =>
      DetectKeepsValid(sp.detector, s);
      StepAgrees(cfg, sp.resolver, Packet(s, Detect(sp.detector, s).1));
    case Counted(snap) => StepAgrees(cfg, sp.resolver, Counts(snap));
  }

  lemma StepAgrees(cfg: Config, r: Resolver, i: Input)
    requires Inv(cfg, r)
    ensures Inv(cfg, Step(cfg, r, i).0)
    ensures Step(cfg, r, i) == match i
      case Packet(s, facts) => ProcessGsi(cfg, r, s, facts)
      case Counts(snap) => ProcessSupplement(cfg, r, snap)
  {
    hide Inv, ProcessGsi, ProcessSupplement;
    StepInv(cfg, r, i);
  }

  lemma StartFacts(cfg: Config)
    ensures Sound(cfg, START) && ClutchTraceOf(START.resolver) == Idle
    ensures ClutchIsLive(START) && AcquisitionAgrees(START)
  {
  }

  lemma {:induction false} AlwaysSound(cfg: Config, obs: seq<Observation>, n: nat)
    requires n <= |obs|
    ensures Sound(cfg, StateAt(cfg, obs, n))
  {
    hide Feed, Sound;
    StartFacts(cfg);
    if n > 0 {
      AlwaysSound(cfg, obs, n - 1);
      FeedSound(cfg, StateAt(cfg, obs, n - 1), obs[n - 1]);
    }
  }

  // ----- Which facts a batch holds -----

  lemma HasWhen(c: bool, kind: EventKind, s: GameState, wanted: EventKind)
    ensures Has(When(c, kind, s), wanted) == (c && kind == wanted)
  {
  }

  lemma HasNone(events: seq<Event>, kinds: set<EventKind>)
    requires forall e :: e in events ==> e.kind in kinds
    ensures forall k :: k !in kinds ==> !Has(events, k)
  {
  }

  lemma OpeningHas(m: DetectorMemory, entered: bool, s: GameState)
    ensures Has(Opening(m, entered, s), MatchEntered) == entered
    ensures Has(Opening(m, entered, s), LocalPlayerAcquired) == AcquiredNow(m, s)
    ensures !Has(Opening(m, entered, s), RoundStarted) && !Has(Opening(m, entered, s), MatchLeft)
  {
    hide When, Has;
    var a, b, c := When(entered, MatchEntered, s), When(AcquiredNow(m, s), LocalPlayerAcquired, s),
                   When(LostNow(m, s), LocalPlayerLost, s);
    forall k ensures Has(Opening(m, entered, s), k) ==
      ((entered && k == MatchEntered) || (AcquiredNow(m, s) && k == LocalPlayerAcquired) || (LostNow(m, s) && k == LocalPlayerLost))
    {
      HasConcat(a, b, k);
      HasConcat(a + b, c, k);
      HasWhen(entered, MatchEntered, s, k);
      HasWhen(AcquiredNow(m, s), LocalPlayerAcquired, s, k);
      HasWhen(LostNow(m, s), LocalPlayerLost, s, k);
    }
  }

  lemma PhasesHave(m: DetectorMemory, p: GameState, s: GameState)
    ensures Has(PhaseChanges(m, p, s), RoundStarted) == RoundStarts(p, s)
  {
  }

  lemma HasMember(events: seq<Event>, e: Event)
    requires e in events
    ensures Has(events, e.kind)
  {
  }

  lemma ChangesHave(m: DetectorMemory, p: GameState, s: GameState)
    ensures Has(Changes(m, p, s), RoundStarted) == RoundStarts(p, s)
    ensures !Has(Changes(m, p, s), MatchEntered) && !Has(Changes(m, p, s), MatchLeft)
            && !Has(Changes(m, p, s), LocalPlayerAcquired)
  {
    hide Pairwise, BombChanges, RoundClose, PhaseChanges;
    PhasesHave(m, p, s);
    var a, b, c, d := Pairwise(p, s), BombChanges(p, s), RoundClose(m, p, s), PhaseChanges(m, p, s);
    HasConcat(a, b, RoundStarted);
    HasConcat(a + b, c, RoundStarted);
    HasConcat(a + b + c, d, RoundStarted);
    ChangesKinds(m, p, s);
  }

  lemma AdvanceHas(m: DetectorMemory, p: GameState, s: GameState, entered: bool)
    ensures
      var facts := Advance(m, p, s, entered).1;
      && Has(facts, MatchEntered) == entered
      && !Has(facts, MatchLeft)
      && Has(facts, RoundStarted) == RoundStarts(p, s)
      && Has(facts, LocalPlayerAcquired) == AcquiredNow(m, s)
      && Factual(facts)
  {
    var a, b, c := Opening(m, entered, s), Restoration(m, s), Changes(m, p, s);
    OpeningHas(m, entered, s);
    ChangesHave(m, p, s);
    ChangesKinds(m, p, s);
    OpeningSansEntry(m, s);
    hide Opening, Restoration, Changes;
    HasNone(b, {LocalPlayerRestored, PlayerRespawned, MvpGained, PlayerAssist});
    forall k ensures Has(a + b + c, k) == (Has(a, k) || Has(b, k) || Has(c, k)) {
      HasConcat(a, b, k);
      HasConcat(a + b, c, k);
    }
    hide Has;
    SemanticFree(a, b, c);
  }

  lemma SemanticFree(a: seq<Event>, b: seq<Event>, c: seq<Event>)
    requires forall e :: e in a || e in b || e in c ==> e.kind !in {Ace, ClutchStarted, ClutchUpdated, ClutchEnded}
    ensures forall e :: e in a + b + c ==> e.kind !in {Ace, ClutchStarted, ClutchUpdated, ClutchEnded}
  {
  }

  predicate BeginsRound(m: DetectorMemory, s: GameState) {
    m.previous.Some? && !Leaves(m, s) && RoundStarts(m.previous.value, s)
  }

  /** The facts that steer the resolver, read off the snapshots. */
  lemma BatchFacts(m: DetectorMemory, s: GameState)
    requires Valid(m) && s.payloadValid
    ensures
      var facts := Detect(m, s).1;
      && Factual(facts)
      && Has(facts, MatchEntered) == Enters(m, s)
      && Has(facts, MatchLeft) == Leaves(m, s)
      && Has(facts, RoundStarted) == BeginsRound(m, s)
      && Has(facts, LocalPlayerAcquired) == (s.mapName.Some? && s.localPlayerValid && !Entry(m, s).everAcquired)
  {
    var facts := Detect(m, s).1;
    if m.previous.None? {
      forall k ensures Has(facts, k) ==
        ((s.mapName.Some? && k == MatchEntered) || (s.mapName.Some? && s.localPlayerValid && k == LocalPlayerAcquired))
      {
        HasConcat(When(s.mapName.Some?, MatchEntered, s),
                  When(s.mapName.Some? && s.localPlayerValid, LocalPlayerAcquired, s), k);
        HasWhen(s.mapName.Some?, MatchEntered, s, k);
        HasWhen(s.mapName.Some? && s.localPlayerValid, LocalPlayerAcquired, s, k);
      }
    } else if Leaves(m, s) {
      forall k ensures Has(facts, k) == (k == MatchLeft) {
        HasWhen(true, MatchLeft, s, k);
      }
    } else {
      hide Advance, Has, Factual, Valid;
      AdvanceHas(Entry(m, s), m.previous.value, s, Enters(m, s));
    }
  }

  // ----- Clutch grammar of the combined trace -----

  lemma FeedClutch(cfg: Config, sp: SpineState, o: Observation)
    requires Sound(cfg, sp)
    ensures Fold(ClutchDelta, ClutchTraceOf(sp.resolver), Feed(cfg, sp, o).1) == ClutchTraceOf(Feed(cfg, sp, o).0.resolver)
  {
    match o
    case Reported(s) =>
      if s.payloadValid {
        BatchFacts(sp.detector, s);
        hide Valid, Inv, Detect, ProcessGsi, ClutchDelta, ClutchTraceOf, Factual, Has, Fold;
        var facts := Detect(sp.detector, s).1;
        StepAgrees(cfg, sp.resolver, Packet(s, facts));
        ClutchTraceStep(cfg, sp.resolver, Packet(s, facts));
      }
    case Counted(snap) =>
      hide Valid, Inv, ProcessSupplement, ClutchDelta, ClutchTraceOf, Fold;
      StepAgrees(cfg, sp.resolver, Counts(snap));
      ClutchTraceStep(cfg, sp.resolver, Counts(snap));
      assert [] + Step(cfg, sp.resolver, Counts(snap)).1 == Step(cfg, sp.resolver, Counts(snap)).1;
  }

  /** For every run, unconditionally: two CLUTCH_STARTED are separated by CLUTCH_ENDED,
      ROUND_STARTED or MATCH_ENTERED, and updates and ends occur only while one is active. */
  lemma {:induction false} CombinedClutchGrammar(cfg: Config, obs: seq<Observation>, n: nat)
    requires n <= |obs|
    ensures Fold(ClutchDelta, Idle, WholeTrace(cfg, obs, n)) == ClutchTraceOf(StateAt(cfg, obs, n).resolver) != BrokenClutch
  {
    hide Feed, Sound, ClutchDelta, ClutchTraceOf, ClutchIsLive, AcquisitionAgrees;
    StartFacts(cfg);
    ClutchTraceSound(StateAt(cfg, obs, n).resolver);
    if n > 0 {
      CombinedClutchGrammar(cfg, obs, n - 1);
      AlwaysSound(cfg, obs, n - 1);
      FeedClutch(cfg, StateAt(cfg, obs, n - 1), obs[n - 1]);
      FoldConcat(ClutchDelta, Idle, WholeTrace(cfg, obs, n - 1), BatchAt(cfg, obs, n - 1));
    }
  }

  /** Exactly (Started Updated* Ended)*: nothing may cut a clutch short. */
  function StrictDelta(q: ClutchTrace, e: Event): ClutchTrace {
    if e.kind in {RoundStarted, MatchEntered} && q != Idle then BrokenClutch else ClutchDelta(q, e)
  }

  /** Evidence arrives in time and a detached snapshot says nothing about a round. */
  predicate Orderly(cfg: Config, sp: SpineState, o: Observation) {
    o.Reported? && o.state.payloadValid ==>
      && (sp.resolver.supplement.Some? ==> FreshAt(cfg, sp.resolver.supplement.value, o.state.relativeUs))
      && (o.state.mapName.None? ==> o.state.roundPhase.None?)
  }

  /** While a clutch is active the detector's previous snapshot is live. */
  predicate ClutchIsLive(sp: SpineState) {
    && ClutchFaithful(sp.resolver)
    && (sp.resolver.latest.Some? ==> sp.detector.previous == sp.resolver.latest)
    && (sp.detector.previous.Some? && sp.detector.previous.value.mapName.None? ==>
          sp.detector.previous.value.roundPhase.None?)
  }

  lemma {:induction false} StrictFacts(q: ClutchTrace, facts: seq<Event>)
    requires q != BrokenClutch
    requires forall e :: e in facts ==> e.kind !in {Ace, ClutchStarted, ClutchUpdated, ClutchEnded}
    requires q == Idle || (!Has(facts, RoundStarted) && !Has(facts, MatchEntered))
    ensures Fold(StrictDelta, q, facts) == q
    decreases |facts|
  {
    if facts != [] {
      HasMember(facts, facts[0]);
      forall e | e in facts[1..] ensures e in facts {
      }
      StrictFacts(q, facts[1..]);
    }
  }

  lemma {:induction false} StrictSemantic(q: ClutchTrace, trace: seq<Event>)
    requires forall e :: e in trace ==> e.kind in {Ace, ClutchStarted, ClutchUpdated, ClutchEnded}
    ensures Fold(StrictDelta, q, trace) == Fold(ClutchDelta, q, trace)
    decreases |trace|
  {
    if trace != [] {
      forall e | e in trace[1..] ensures e in trace {
      }
      StrictSemantic(ClutchDelta(q, trace[0]), trace[1..]);
    }
  }

  lemma InterpretKinds(cfg: Config, r: Resolver, snap: Snapshot, us: nat)
    ensures forall e :: e in Interpret(cfg, r, snap, us).1 ==> e.kind in {Ace, ClutchStarted, ClutchUpdated, ClutchEnded}
  {
    hide Observe, AceProven, Seen;
  }

  /** The resolver speaks only in its own kinds, and remembers the packet unless the match is left. */
  lemma GsiKinds(cfg: Config, r: Resolver, s: GameState, facts: seq<Event>)
    requires Inv(cfg, r)
    ensures forall e :: e in ProcessGsi(cfg, r, s, facts).1 ==> e.kind in {Ace, ClutchStarted, ClutchUpdated, ClutchEnded}
    ensures ProcessGsi(cfg, r, s, facts).0.latest == if Has(facts, MatchLeft) then None else Some(s)
  {
    PrepareInv(cfg, r, s, facts);
    LeaveCloses(facts);
    hide Prepare, Interpret, Has, Inv, ClosesRound, ClutchFaithful, Observe;
    var p := Prepare(cfg, r, s, facts);
    EvaluateInv(cfg, p, s.relativeUs);
    if CurrentRoundSupplement(cfg, p, s.relativeUs) {
      InterpretKinds(cfg, p, p.supplement.value, s.relativeUs);
    }
  }

  lemma SupplementKinds(cfg: Config, r: Resolver, snap: Snapshot)
    requires Inv(cfg, r)
    ensures forall e :: e in ProcessSupplement(cfg, r, snap).1 ==> e.kind in {Ace, ClutchStarted, ClutchUpdated, ClutchEnded}
    ensures ProcessSupplement(cfg, r, snap).0.latest == r.latest
  {
    if Accepts(r, snap) {
      AcceptInv(cfg, r, snap);
      hide Interpret, Inv, ClutchFaithful, Observe;
      InterpretInv(cfg, Accepted(r, snap), snap, snap.relativeUs);
      InterpretKinds(cfg, Accepted(r, snap), snap, snap.relativeUs);
    }
  }

  lemma CutsOnlyWhenIdle(sp: SpineState, s: GameState)
    requires ClutchIsLive(sp)
    requires BeginsRound(sp.detector, s) || Enters(sp.detector, s)
    ensures ClutchTraceOf(sp.resolver) == Idle
  {
  }

  lemma StrictStep(cfg: Config, sp: SpineState, o: Observation)
    requires Sound(cfg, sp) && ClutchIsLive(sp) && Orderly(cfg, sp, o)
    ensures ClutchIsLive(Feed(cfg, sp, o).0)
    ensures Fold(StrictDelta, ClutchTraceOf(sp.resolver), Feed(cfg, sp, o).1) ==
      ClutchTraceOf(Feed(cfg, sp, o).0.resolver)
  {
    FeedClutch(cfg, sp, o);
    match o
    case Reported(s) =>
      if s.payloadValid {
        BatchFacts(sp.detector, s);
        if BeginsRound(sp.detector, s) || Enters(sp.detector, s) {
          CutsOnlyWhenIdle(sp, s);
        }
        PreviousAfter(sp.detector, s);
        ClutchTraceSound(sp.resolver);
        hide Valid, Inv, Detect, ProcessGsi, ClutchDelta, StrictDelta, ClutchTraceOf, Has, Fold, ClutchFaithful,
             BeginsRound, Enters, Leaves, FreshAt;
        var facts := Detect(sp.detector, s).1;
        var i := Packet(s, facts);
        StepAgrees(cfg, sp.resolver, i);
        GsiKinds(cfg, sp.resolver, s, facts);
        ClutchStep(cfg, sp.resolver, i);
        var semantic := ProcessGsi(cfg, sp.resolver, s, facts).1;
        var q := ClutchTraceOf(sp.resolver);
        StrictFacts(q, facts);
        StrictSemantic(q, semantic);
        FoldConcat(StrictDelta, q, facts, semantic);
        ClutchFacts(q, facts);
        FoldConcat(ClutchDelta, q, facts, semantic);
      }
    case Counted(snap) =>
      hide Valid, Inv, ProcessSupplement, ClutchDelta, StrictDelta, ClutchTraceOf, Fold, ClutchFaithful;
      StepAgrees(cfg, sp.resolver, Counts(snap));
      SupplementKinds(cfg, sp.resolver, snap);
      ClutchStep(cfg, sp.resolver, Counts(snap));
      StrictSemantic(ClutchTraceOf(sp.resolver), ProcessSupplement(cfg, sp.resolver, snap).1);
  }

  lemma PreviousAfter(m: DetectorMemory, s: GameState)
    requires s.payloadValid
    ensures Detect(m, s).0.previous == Some(s)
  {
  }

  /** In orderly runs the clutch trace is exactly (Started Updated* Ended)* with an optional
      open tail, and the open tail is there exactly while the clutch condition holds. */
  lemma {:induction false} StrictClutchGrammar(cfg: Config, obs: seq<Observation>, n: nat)
    requires n <= |obs|
    requires forall k :: 0 <= k < n ==> Orderly(cfg, StateAt(cfg, obs, k), obs[k])
    ensures ClutchIsLive(StateAt(cfg, obs, n))
    ensures Fold(StrictDelta, Idle, WholeTrace(cfg, obs, n)) == ClutchTraceOf(StateAt(cfg, obs, n).resolver) != BrokenClutch
  {
    hide Feed, Sound, StrictDelta, ClutchTraceOf, ClutchIsLive, AcquisitionAgrees, Orderly;
    StartFacts(cfg);
    ClutchTraceSound(StateAt(cfg, obs, n).resolver);
    if n > 0 {
      StrictClutchGrammar(cfg, obs, n - 1);
      AlwaysSound(cfg, obs, n - 1);
      StrictStep(cfg, StateAt(cfg, obs, n - 1), obs[n - 1]);
      FoldConcat(StrictDelta, Idle, WholeTrace(cfg, obs, n - 1), BatchAt(cfg, obs, n - 1));
    }
  }

  // ----- The two stages agree about the local player -----

  predicate AcquisitionAgrees(sp: SpineState) {
    && (sp.detector.previous.Some? && sp.detector.previous.value.mapName.Some? ==>
          sp.resolver.acquired == sp.detector.everAcquired)
    && (sp.detector.previous.None? ==> !sp.resolver.acquired)
  }

  lemma AcquiredAfterGsi(cfg: Config, r: Resolver, s: GameState, facts: seq<Event>)
    requires Inv(cfg, r)
    ensures ProcessGsi(cfg, r, s, facts).0.acquired == (!Has(facts, MatchLeft) &&
      ((r.acquired && !Has(facts, MatchEntered)) || Has(facts, LocalPlayerAcquired) || s.localPlayerValid))
  {
    PrepareInv(cfg, r, s, facts);
    LeaveCloses(facts);
    PrepareAcquired(cfg, r, s, facts);
    var p := Prepare(cfg, r, s, facts);
    hide Prepare, Evaluate, Has, Inv, ClosesRound, ClutchFaithful, Observe;
    EvaluateInv(cfg, p, s.relativeUs);
  }

  lemma PrepareAcquired(cfg: Config, r: Resolver, s: GameState, facts: seq<Event>)
    ensures Prepare(cfg, r, s, facts).acquired ==
      ((r.acquired && !Has(facts, MatchEntered)) || Has(facts, LocalPlayerAcquired) || s.localPlayerValid)
  {
    hide Has, PerspectiveForTeam;
  }

  lemma AcquisitionStep(cfg: Config, sp: SpineState, o: Observation)
    requires Sound(cfg, sp) && AcquisitionAgrees(sp)
    ensures AcquisitionAgrees(Feed(cfg, sp, o).0)
  {
    match o
    case Reported(s) =>
      if s.payloadValid {
        BatchFacts(sp.detector, s);
        PreviousAfter(sp.detector, s);
        AcquiredAfterGsi(cfg, sp.resolver, s, Detect(sp.detector, s).1);
        hide ProcessGsi, Has, Inv, Opening, Restoration, Changes, Factual;
      }
    case Counted(snap) =>
      if Accepts(sp.resolver, snap) {
        AcceptInv(cfg, sp.resolver, snap);
        hide Interpret, Inv, ClutchFaithful, Observe, Valid;
        InterpretInv(cfg, Accepted(sp.resolver, snap), snap, snap.relativeUs);
      }
  }

  /** While attached, the resolver's flag is the detector's. */
  lemma {:induction false} AcquisitionAlwaysAgrees(cfg: Config, obs: seq<Observation>, n: nat)
    requires n <= |obs|
    ensures AcquisitionAgrees(StateAt(cfg, obs, n))
  {
    hide Feed, Sound, ClutchTraceOf, ClutchIsLive, AcquisitionAgrees;
    StartFacts(cfg);
    if n > 0 {
      AcquisitionAlwaysAgrees(cfg, obs, n - 1);
      AlwaysSound(cfg, obs, n - 1);
      AcquisitionStep(cfg, StateAt(cfg, obs, n - 1), obs[n - 1]);
    }
  }

  // ----- A run as a history of the resolver -----

  /** What the resolver is given in a run: the valid packets with the detector's facts, and the counts. */
  function History(cfg: Config, obs: seq<Observation>, n: nat): seq<Input>
    requires n <= |obs|
  {
    if n == 0 then []
    else
      History(cfg, obs, n - 1) +
      match obs[n - 1]
      case Reported(s) =>
        if s.payloadValid then [Packet(s, Detect(StateAt(cfg, obs, n - 1).detector, s).1)] else []
      case Counted(snap) => [Counts(snap)]
  }

  lemma {:induction false} BeforePrefix(cfg: Config, a: seq<Input>, b: seq<Input>, n: nat)
    requires n <= |a|
    ensures Before(cfg, a + b, n) == Before(cfg, a, n)
  {
    hide Step;
    if n > 0 {
      BeforePrefix(cfg, a, b, n - 1);
    }
  }

  lemma BeforeNext(cfg: Config, ins: seq<Input>, i: Input)
    ensures Before(cfg, ins + [i], |ins| + 1) == Step(cfg, Before(cfg, ins, |ins|), i).0
  {
    hide Step;
    BeforePrefix(cfg, ins, [i], |ins|);
    assert (ins + [i])[|ins|] == i;
  }

  /** So every theorem about histories is one about runs. */
  lemma {:induction false} ResolverRunsHistory(cfg: Config, obs: seq<Observation>, n: nat)
    requires n <= |obs|
    ensures
      var ins := History(cfg, obs, n);
      StateAt(cfg, obs, n).resolver == Before(cfg, ins, |ins|)
  {
    hide Step, Detect, START, INITIAL, Inv;
    if n == 0 {
      assert START.resolver == INITIAL by { StartParts(); }
    } else {
      var before, y := History(cfg, obs, n - 1), StateAt(cfg, obs, n - 1);
      ResolverRunsHistory(cfg, obs, n - 1);
      AlwaysSound(cfg, obs, n - 1);
      match obs[n - 1]
      case Reported(s) =>
        if s.payloadValid {
          var i := Packet(s, Detect(y.detector, s).1);
          BeforeNext(cfg, before, i);
          StepAgrees(cfg, y.resolver, i);
          assert History(cfg, obs, n) == before + [i];
        } else {
          assert History(cfg, obs, n) == before + [] == before;
        }
      case Counted(snap) =>
        BeforeNext(cfg, before, Counts(snap));
        StepAgrees(cfg, y.resolver, Counts(snap));
        assert History(cfg, obs, n) == before + [Counts(snap)];
    }
  }

  lemma StartParts()
    ensures START.resolver == INITIAL && START.detector == BLANK
  {
  }

  /** In every run: the clutch flag is its predicate if and only if the evidence was read right
      last, and old counts are on show if and only if one was accepted last. */
  lemma RunsExactly(cfg: Config, obs: seq<Observation>, n: nat)
    requires n <= |obs|
    ensures
      var r, ins := StateAt(cfg, obs, n).resolver, History(cfg, obs, n);
      && (ClutchFaithful(r) <==> EvidenceRead(cfg, ins, |ins|))
      && (ShowsOld(r) <==> OldSupplementLast(cfg, ins, |ins|))
  {
    hide ClutchFaithful, ShowsOld, EvidenceRead, OldSupplementLast, History, StateAt, Before;
    var ins := History(cfg, obs, n);
    ResolverRunsHistory(cfg, obs, n);
    ClutchExactly(cfg, ins, |ins|);
    OldCountsExactly(cfg, ins, |ins|);
  }
}
