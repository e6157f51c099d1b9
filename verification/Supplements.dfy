/** Supplementary evidence only ever adds semantics: facts and lifecycle never depend on
    it, rejected evidence leaves no trace, and leaving a match forgets everything. */
module Supplements {
  import opened Telemetry
  import opened EventDetection
  import opened DetectorTheorems
  import opened SupplementaryCounts
  import opened SemanticResolution
  import opened ResolverTheorems
  import opened Spine

  // ----- What is left of a resolver that never saw a supplement -----

  function EraseContext(c: Context): Context {
    c.(supplementAvailable := false, supplementSource := Unknown, supplementUs := 0, counts := NO_COUNTS,
       aliveDelta := None, clutchActive := false, clutchOpponents := None, rosterChanged := false)
  }

  function Erase(r: Resolver): Resolver {
    r.(context := EraseContext(r.context), supplement := None, lastSupplementUs := None,
       baseTotal := None, baseRevision := None, churned := false, aceEmitted := false,
       clutch := false, opponents := None)
  }

  lemma EraseInterpret(cfg: Config, r: Resolver, snap: Snapshot, us: nat)
    ensures Erase(Interpret(cfg, r, snap, us).0) == Erase(r)
  {
    EraseCounts(r, snap);
    EraseRoster(WithCounts(r, snap), snap);
    EraseClutch(Observe(r, snap), us);
    EraseAce(cfg, EvaluateClutch(Observe(r, snap), us).0, us);
    hide WithCounts, WithRoster, EvaluateClutch, EvaluateAce, Erase;
  }

  lemma EraseCounts(r: Resolver, snap: Snapshot)
    ensures Erase(WithCounts(r, snap)) == Erase(r)
  {
  }

  lemma EraseRoster(r: Resolver, snap: Snapshot)
    ensures Erase(WithRoster(r, snap)) == Erase(r)
  {
  }

  lemma EraseAce(cfg: Config, r: Resolver, us: nat)
    ensures Erase(EvaluateAce(cfg, r, us).0) == Erase(r)
  {
  }

  lemma EraseClutch(r: Resolver, us: nat)
    ensures Erase(EvaluateClutch(r, us).0) == Erase(r) && Erase(ClutchEnd(r, us).0) == Erase(r)
  {
  }

  lemma EraseEvaluate(cfg: Config, r: Resolver, us: nat)
    ensures Erase(Evaluate(cfg, r, us).0) == Erase(r)
    ensures Evaluate(cfg, Erase(r), us) == (Erase(r), [])
  {
    hide Interpret;
    if CurrentRoundSupplement(cfg, r, us) {
      EraseInterpret(cfg, r, r.supplement.value, us);
    }
  }

  lemma EraseClose(r: Resolver, us: nat, facts: seq<Event>)
    ensures Close(Erase(r), us, facts) == (Erase(Close(r, us, facts).0), [])
  {
  }

  lemma ErasePrepare(cfg: Config, r: Resolver, s: GameState, facts: seq<Event>)
    ensures Prepare(cfg, Erase(r), s, facts) == Erase(Prepare(cfg, r, s, facts))
  {
    EraseInitial();
    var r0 := if Has(facts, MatchEntered) then INITIAL else r;
    EraseLocalPlayer(r0, s, facts);
    EraseLifecycle(WithLocalPlayer(r0, s, facts), s);
    EraseRoundStart(cfg, WithLifecycle(WithLocalPlayer(r0, s, facts), s), s);
    hide Has, WithLocalPlayer, WithLifecycle, WithRoundStart, Erase;
  }

  lemma EraseInitial()
    ensures Erase(INITIAL) == INITIAL
  {
  }

  lemma EraseLocalPlayer(r: Resolver, s: GameState, facts: seq<Event>)
    ensures WithLocalPlayer(Erase(r), s, facts) == Erase(WithLocalPlayer(r, s, facts))
  {
  }

  lemma EraseLifecycle(r: Resolver, s: GameState)
    ensures WithLifecycle(Erase(r), s) == Erase(WithLifecycle(r, s))
  {
  }

  lemma EraseRoundStart(cfg: Config, r: Resolver, s: GameState)
    ensures WithRoundStart(cfg, Erase(r), s) == Erase(WithRoundStart(cfg, r, s))
  {
  }

  lemma EraseGsi(cfg: Config, r: Resolver, s: GameState, facts: seq<Event>)
    ensures ProcessGsi(cfg, Erase(r), s, facts).0 == Erase(ProcessGsi(cfg, r, s, facts).0)
    ensures ProcessGsi(cfg, Erase(r), s, facts).1 == []
  {
    hide Prepare, Evaluate, Close, Erase;
    ErasePrepare(cfg, r, s, facts);
    var p := Prepare(cfg, r, s, facts);
    EraseEvaluate(cfg, p, s.relativeUs);
    var e := Evaluate(cfg, p, s.relativeUs).0;
    EraseClose(e, s.relativeUs, facts);
    EraseClose(p, s.relativeUs, facts);
  }

  lemma EraseSupplement(cfg: Config, r: Resolver, snap: Snapshot)
    ensures Erase(ProcessSupplement(cfg, r, snap).0) == Erase(r)
  {
    hide Interpret, ValidTeamCounts;
    if Accepts(r, snap) {
      EraseInterpret(cfg, Accepted(r, snap), snap, snap.relativeUs);
    }
  }

  // ----- Deleting all supplements -----

  /** The first `n` observations without the supplements. */
  function GsiOnly(obs: seq<Observation>, n: nat): seq<Observation>
    requires n <= |obs|
  {
    if n == 0 then []
    else GsiOnly(obs, n - 1) + if obs[n - 1].Reported? then [obs[n - 1]] else []
  }

  function FactsOnly(trace: seq<Event>): seq<Event> {
    if trace == [] then []
    else (if trace[0].kind in SEMANTIC_KINDS then [] else [trace[0]]) + FactsOnly(trace[1..])
  }

  lemma {:induction false} FactsOnlyConcat(a: seq<Event>, b: seq<Event>)
    ensures FactsOnly(a + b) == FactsOnly(a) + FactsOnly(b)
    decreases |a|
  {
    if a == [] {
      assert a + b == b;
    } else {
      assert (a + b)[0] == a[0] && (a + b)[1..] == a[1..] + b;
      FactsOnlyConcat(a[1..], b);
    }
  }

  lemma {:induction false} FactsOnlyOf(facts: seq<Event>, semantic: seq<Event>)
    requires forall e :: e in facts ==> e.kind !in SEMANTIC_KINDS
    requires forall e :: e in semantic ==> e.kind in SEMANTIC_KINDS
    ensures FactsOnly(facts) == facts && FactsOnly(semantic) == []
    decreases |facts| + |semantic|
  {
    if facts != [] {
      FactsOnlyOf(facts[1..], semantic);
    } else if semantic != [] {
      FactsOnlyOf(facts, semantic[1..]);
    }
  }

  /** Deleting every supplement from a run leaves exactly its factual events, the same
      detector, and a resolver that differs only in what supplements wrote. */
  lemma {:induction false} SupplementsNeverDisturbFacts(cfg: Config, obs: seq<Observation>, n: nat)
    requires n <= |obs|
    ensures
      var g := GsiOnly(obs, n);
      && WholeTrace(cfg, g, |g|) == FactsOnly(WholeTrace(cfg, obs, n))
      && StateAt(cfg, g, |g|).detector == StateAt(cfg, obs, n).detector
      && StateAt(cfg, g, |g|).resolver == Erase(StateAt(cfg, obs, n).resolver)
  {
    hide Erase, Feed, Sound, INITIAL, BLANK;
    if n == 0 {
      EraseInitial();
    } else {
      SupplementsNeverDisturbFacts(cfg, obs, n - 1);
      AlwaysSound(cfg, obs, n - 1);
      var g, sp, o := GsiOnly(obs, n - 1), StateAt(cfg, obs, n - 1), obs[n - 1];
      FeedErased(cfg, sp, o);
      FactsOnlyConcat(WholeTrace(cfg, obs, n - 1), BatchAt(cfg, obs, n - 1));
      hide FactsOnly;
      if o.Reported? {
        var h := g + [o];
        assert GsiOnly(obs, n) == h;
        PrefixRun(cfg, g, [o], |g|);
      } else {
        assert GsiOnly(obs, n) == g;
      }
    }
  }

  function Erased(sp: SpineState): SpineState { SpineState(sp.detector, Erase(sp.resolver)) }

  lemma FeedErased(cfg: Config, sp: SpineState, o: Observation)
    requires Sound(cfg, sp)
    ensures o.Reported? ==>
      Feed(cfg, Erased(sp), o).0 == Erased(Feed(cfg, sp, o).0) && Feed(cfg, Erased(sp), o).1 == FactsOnly(Feed(cfg, sp, o).1)
    ensures o.Counted? ==>
      Erased(Feed(cfg, sp, o).0) == Erased(sp) && FactsOnly(Feed(cfg, sp, o).1) == []
  {
    hide Inv, Valid, Erase, ValidTeamCounts, Has, Detect, ProcessGsi, ProcessSupplement, FactsOnly;
    match o
    case Reported(s) =>
      if s.payloadValid {
        PacketErased(cfg, sp, s);
      } else {
        FactsOnlyOf([], []);
      }
    case Counted(snap) =>
      EraseSupplement(cfg, sp.resolver, snap);
      SupplementKinds(cfg, sp.resolver, snap);
      FactsOnlyOf([], ProcessSupplement(cfg, sp.resolver, snap).1);
  }

  lemma PacketErased(cfg: Config, sp: SpineState, s: GameState)
    requires Sound(cfg, sp) && s.payloadValid
    ensures
      var facts := Detect(sp.detector, s).1;
      var (next, semantic) := ProcessGsi(cfg, sp.resolver, s, facts);
      && ProcessGsi(cfg, Erase(sp.resolver), s, facts) == (Erase(next), [])
      && FactsOnly(facts + semantic) == facts
  {
    hide Detect, ProcessGsi, Erase, Valid, Inv, Has, FactsOnly, Enters, Leaves, BeginsRound, Entry;
    BatchFacts(sp.detector, s);
    var facts := Detect(sp.detector, s).1;
    EraseGsi(cfg, sp.resolver, s, facts);
    GsiKinds(cfg, sp.resolver, s, facts);
    var semantic := ProcessGsi(cfg, sp.resolver, s, facts).1;
    FactsOnlyConcat(facts, semantic);
    FactsOnlyOf(facts, semantic);
  }

  /** Without supplements nothing semantic is ever emitted. */
  lemma NoSupplementsNoSemantics(cfg: Config, obs: seq<Observation>, n: nat)
    requires n <= |obs|
    requires forall k :: 0 <= k < n ==> obs[k].Reported?
    ensures forall e :: e in WholeTrace(cfg, obs, n) ==> e.kind !in SEMANTIC_KINDS
  {
    hide FactsOnly, StateAt, WholeTrace, GsiOnly, Erase;
    SupplementsNeverDisturbFacts(cfg, obs, n);
    AllGsi(obs, n);
    assert obs[..n] + obs[n..] == obs;
    PrefixRun(cfg, obs[..n], obs[n..], n);
    OnlyFacts(WholeTrace(cfg, obs, n));
  }

  lemma {:induction false} AllGsi(obs: seq<Observation>, n: nat)
    requires n <= |obs| && forall k :: 0 <= k < n ==> obs[k].Reported?
    ensures GsiOnly(obs, n) == obs[..n]
  {
    if n > 0 {
      AllGsi(obs, n - 1);
    }
  }

  lemma {:induction false} OnlyFacts(trace: seq<Event>)
    ensures forall e :: e in FactsOnly(trace) ==> e.kind !in SEMANTIC_KINDS
    decreases |trace|
  {
    if trace != [] {
      OnlyFacts(trace[1..]);
    }
  }

  // ----- Deleting rejected supplements -----

  predicate Rejected(sp: SpineState, o: Observation) {
    o.Counted? && !Accepts(sp.resolver, o.snap)
  }

  function WithoutRejected(cfg: Config, obs: seq<Observation>, n: nat): seq<Observation>
    requires n <= |obs|
  {
    if n == 0 then []
    else WithoutRejected(cfg, obs, n - 1)
         + if Rejected(StateAt(cfg, obs, n - 1), obs[n - 1]) then [] else [obs[n - 1]]
  }

  /** Deleting exactly the rejected supplements changes nothing at all. */
  lemma {:induction false} RejectedLeaveNoTrace(cfg: Config, obs: seq<Observation>, n: nat)
    requires n <= |obs|
    ensures
      var kept := WithoutRejected(cfg, obs, n);
      && StateAt(cfg, kept, |kept|) == StateAt(cfg, obs, n)
      && WholeTrace(cfg, kept, |kept|) == WholeTrace(cfg, obs, n)
  {
    hide Feed, Rejected;
    if n > 0 {
      RejectedLeaveNoTrace(cfg, obs, n - 1);
      var kept, sp, o := WithoutRejected(cfg, obs, n - 1), StateAt(cfg, obs, n - 1), obs[n - 1];
      if Rejected(sp, o) {
        RejectedStep(cfg, sp, o);
        assert WithoutRejected(cfg, obs, n) == kept;
      } else {
        assert WithoutRejected(cfg, obs, n) == kept + [o];
        PrefixRun(cfg, kept, [o], |kept|);
      }
    }
  }

  lemma RejectedStep(cfg: Config, sp: SpineState, o: Observation)
    requires Rejected(sp, o)
    ensures Feed(cfg, sp, o) == (sp, [])
  {
  }

  // ----- Accepted timestamps never go back within a match -----

  predicate Boundary(sp: SpineState, o: Observation) {
    o.Reported? && o.state.payloadValid && (Enters(sp.detector, o.state) || Leaves(sp.detector, o.state))
  }

  predicate AcceptedNoEarlier(sp: SpineState, us: nat) {
    sp.resolver.lastSupplementUs.Some? && sp.resolver.lastSupplementUs.value >= us
  }

  lemma LastSupplementAfterGsi(cfg: Config, r: Resolver, s: GameState, facts: seq<Event>)
    requires !Has(facts, MatchEntered) && !Has(facts, MatchLeft) && Inv(cfg, r)
    ensures ProcessGsi(cfg, r, s, facts).0.lastSupplementUs == r.lastSupplementUs
  {
    PrepareInv(cfg, r, s, facts);
    var p := Prepare(cfg, r, s, facts);
    assert p.lastSupplementUs == r.lastSupplementUs by { hide Has, PerspectiveForTeam; }
    hide Prepare, Evaluate, Has, Inv, ClutchFaithful, Observe;
    EvaluateInv(cfg, p, s.relativeUs);
  }

  lemma FloorStep(cfg: Config, sp: SpineState, o: Observation, us: nat)
    requires Sound(cfg, sp) && AcceptedNoEarlier(sp, us) && !Boundary(sp, o)
    ensures AcceptedNoEarlier(Feed(cfg, sp, o).0, us)
    ensures o.Counted? && Accepts(sp.resolver, o.snap) ==> us <= o.snap.relativeUs
  {
    match o
    case Reported(s) =>
      if s.payloadValid {
        BatchFacts(sp.detector, s);
        hide Detect, ProcessGsi, Valid, Inv, Has, Enters, Leaves;
        LastSupplementAfterGsi(cfg, sp.resolver, s, Detect(sp.detector, s).1);
      }
    case Counted(snap) =>
      if Accepts(sp.resolver, snap) {
        AcceptInv(cfg, sp.resolver, snap);
        hide Interpret, Inv, ClutchFaithful, Observe, Valid, ValidTeamCounts;
        InterpretInv(cfg, Accepted(sp.resolver, snap), snap, snap.relativeUs);
      }
  }

  lemma {:induction false} AcceptedTimesNonDecreasing(cfg: Config, obs: seq<Observation>, i: nat, n: nat)
    requires i < n <= |obs|
    requires obs[i].Counted? && Accepts(StateAt(cfg, obs, i).resolver, obs[i].snap)
    requires forall k :: i < k < n ==> !Boundary(StateAt(cfg, obs, k), obs[k])
    ensures AcceptedNoEarlier(StateAt(cfg, obs, n), obs[i].snap.relativeUs)
    ensures n < |obs| && obs[n].Counted? && Accepts(StateAt(cfg, obs, n).resolver, obs[n].snap) ==>
      obs[i].snap.relativeUs <= obs[n].snap.relativeUs
  {
    var us := obs[i].snap.relativeUs;
    if n == i + 1 {
      AlwaysSound(cfg, obs, i);
      AcceptSetsFloor(cfg, StateAt(cfg, obs, i), obs[i]);
    } else {
      hide Feed, Accepts, Boundary, AcceptedNoEarlier, Sound;
      AcceptedTimesNonDecreasing(cfg, obs, i, n - 1);
      AlwaysSound(cfg, obs, n - 1);
      FloorStep(cfg, StateAt(cfg, obs, n - 1), obs[n - 1], us);
    }
    hide Feed, Sound;
  }

  lemma AcceptSetsFloor(cfg: Config, sp: SpineState, o: Observation)
    requires Sound(cfg, sp) && o.Counted? && Accepts(sp.resolver, o.snap)
    ensures AcceptedNoEarlier(Feed(cfg, sp, o).0, o.snap.relativeUs)
  {
    AcceptInv(cfg, sp.resolver, o.snap);
    hide Interpret, Inv, ClutchFaithful, Observe, Valid, ValidTeamCounts;
    InterpretInv(cfg, Accepted(sp.resolver, o.snap), o.snap, o.snap.relativeUs);
  }

  // ----- Leaving a match forgets everything -----

  lemma LeaveForgets(cfg: Config, sp: SpineState, s: GameState)
    requires Sound(cfg, sp) && s.payloadValid && Leaves(sp.detector, s)
    ensures Feed(cfg, sp, Reported(s)).0 == SpineState(Wiped(Some(s)), INITIAL)
  {
  }

  /** Any two histories that leave a match on the same snapshot behave identically from
      then on: same states and same batches over every common continuation. */
  lemma {:induction false} MatchLeaveForgets(cfg: Config, a: seq<Observation>, b: seq<Observation>, i: nat, j: nat, n: nat)
    requires i < |a| && j < |b| && a[i] == b[j] && a[i].Reported? && a[i].state.payloadValid
    requires Leaves(StateAt(cfg, a, i).detector, a[i].state) && Leaves(StateAt(cfg, b, j).detector, b[j].state)
    requires i + 1 + n <= |a| && j + 1 + n <= |b|
    requires a[i + 1..i + 1 + n] == b[j + 1..j + 1 + n]
    ensures StateAt(cfg, a, i + 1 + n) == StateAt(cfg, b, j + 1 + n)
    ensures n > 0 ==> BatchAt(cfg, a, i + n) == BatchAt(cfg, b, j + n)
  {
    hide Feed, Leaves, Sound;
    if n == 0 {
      AlwaysSound(cfg, a, i);
      AlwaysSound(cfg, b, j);
      LeaveForgets(cfg, StateAt(cfg, a, i), a[i].state);
      LeaveForgets(cfg, StateAt(cfg, b, j), b[j].state);
    } else {
      var x, y := a[i + 1..i + 1 + n], b[j + 1..j + 1 + n];
      assert a[i + 1..i + n] == x[..n - 1] && b[j + 1..j + n] == y[..n - 1];
      MatchLeaveForgets(cfg, a, b, i, j, n - 1);
      assert a[i + n] == x[n - 1] && b[j + n] == y[n - 1];
    }
  }
}
