/** CT and T are interchangeable: swapping them in every input swaps nothing but team names. */
module Mirror {
  import opened Telemetry
  import opened EventDetection
  import opened SupplementaryCounts
  import opened SemanticResolution
  import opened DetectorTheorems
  import opened ResolverTheorems
  import opened Spine

  function MirrorName(o: Option<string>): Option<string> {
    if o.Some? then Some(MirrorTeam(o.value)) else None
  }

  function MirrorState(s: GameState): GameState {
    s.(playerTeam := MirrorName(s.playerTeam), roundWinner := MirrorName(s.roundWinner))
  }

  function MirrorStateOption(o: Option<GameState>): Option<GameState> {
    if o.Some? then Some(MirrorState(o.value)) else None
  }

  function MirrorSnapshot(snap: Snapshot): Snapshot {
    snap.(teams := MirrorCounts(snap.teams))
  }

  function MirrorMemory(m: DetectorMemory): DetectorMemory {
    m.(previous := MirrorStateOption(m.previous), localTeam := MirrorName(m.localTeam))
  }

  function MirrorResolver(r: Resolver): Resolver {
    r.(latest := MirrorStateOption(r.latest), team := MirrorName(r.team),
       supplement := if r.supplement.Some? then Some(MirrorSnapshot(r.supplement.value)) else None)
  }

  /** Only the events that carry team names change, and only in those names. */
  function MirrorEvent(e: Event): Event {
    if e.kind in {RoundEnded, RoundWon, RoundLost, TeamChanged}
    then e.(before := MirrorTeam(e.before), after := MirrorTeam(e.after)) else e
  }

  function MirrorTrace(events: seq<Event>): (r: seq<Event>)
    ensures |r| == |events| && forall k :: 0 <= k < |r| ==> r[k] == MirrorEvent(events[k])
  {
    seq(|events|, k requires 0 <= k < |events| => MirrorEvent(events[k]))
  }

  lemma MirrorConcat(a: seq<Event>, b: seq<Event>)
    ensures MirrorTrace(a + b) == MirrorTrace(a) + MirrorTrace(b)
  {
  }

  lemma MirrorHas(events: seq<Event>, kind: EventKind)
    ensures Has(MirrorTrace(events), kind) == Has(events, kind)
  {
  }

  // ----- Up to ace candidates -----

  /** The trace without ACE_CANDIDATE, whose retakes thresholds differ between the teams. */
  function Sans(events: seq<Event>): seq<Event> {
    if events == [] then []
    else (if events[0].kind == AceCandidate then [] else [events[0]]) + Sans(events[1..])
  }

  lemma {:induction false} SansConcat(a: seq<Event>, b: seq<Event>)
    ensures Sans(a + b) == Sans(a) + Sans(b)
    decreases |a|
  {
    if a == [] {
      assert a + b == b;
    } else {
      assert (a + b)[0] == a[0] && (a + b)[1..] == a[1..] + b;
      SansConcat(a[1..], b);
    }
  }

  lemma {:induction false} SansHas(events: seq<Event>, kind: EventKind)
    requires kind != AceCandidate
    ensures Has(Sans(events), kind) == Has(events, kind)
    decreases |events|
  {
    if events != [] {
      SansHas(events[1..], kind);
      var head := if events[0].kind == AceCandidate then [] else [events[0]];
      HasConcat(head, Sans(events[1..]), kind);
      HasConcat([events[0]], events[1..], kind);
      assert events == [events[0]] + events[1..];
    }
  }

  /** Equal but for ace candidates. */
  predicate Alike(a: seq<Event>, b: seq<Event>) { Sans(a) == Sans(b) }

  lemma AlikeHas(a: seq<Event>, b: seq<Event>, kind: EventKind)
    requires Alike(a, b) && kind != AceCandidate
    ensures Has(a, kind) == Has(b, kind)
  {
    SansHas(a, kind);
    SansHas(b, kind);
  }

  lemma AlikeConcat(a: seq<Event>, a': seq<Event>, b: seq<Event>, b': seq<Event>)
    requires Alike(a, a') && Alike(b, b')
    ensures Alike(a + b, a' + b')
  {
    SansConcat(a, b);
    SansConcat(a', b');
  }

  /** Ace candidates do not steer the resolver. */
  lemma CandidatesUnread(cfg: Config, r: Resolver, s: GameState, facts: seq<Event>, facts': seq<Event>)
    requires Alike(facts, facts')
    ensures ProcessGsi(cfg, r, s, facts) == ProcessGsi(cfg, r, s, facts')
  {
    UnreadPrepare(cfg, r, s, facts, facts');
    UnreadClose(Evaluate(cfg, Prepare(cfg, r, s, facts), s.relativeUs).0, s.relativeUs, facts, facts');
    hide Alike, Prepare, Evaluate, Close;
  }

  lemma UnreadPrepare(cfg: Config, r: Resolver, s: GameState, facts: seq<Event>, facts': seq<Event>)
    requires Alike(facts, facts')
    ensures Prepare(cfg, r, s, facts) == Prepare(cfg, r, s, facts')
  {
    AlikeHas(facts, facts', MatchEntered);
    AlikeHas(facts, facts', RoundStarted);
    UnreadLocalPlayer(if Has(facts, MatchEntered) then INITIAL else r, s, facts, facts');
    hide Has, Alike, WithLocalPlayer, WithLifecycle, WithRoundStart, INITIAL;
  }

  lemma UnreadLocalPlayer(r: Resolver, s: GameState, facts: seq<Event>, facts': seq<Event>)
    requires Alike(facts, facts')
    ensures WithLocalPlayer(r, s, facts) == WithLocalPlayer(r, s, facts')
  {
    AlikeHas(facts, facts', LocalPlayerAcquired);
    AlikeHas(facts, facts', PlayerDied);
    AlikeHas(facts, facts', PlayerRespawned);
    hide Has, Alike;
  }

  lemma UnreadClose(r: Resolver, us: nat, facts: seq<Event>, facts': seq<Event>)
    requires Alike(facts, facts')
    ensures Close(r, us, facts) == Close(r, us, facts')
  {
    AlikeHas(facts, facts', RoundEnded);
    AlikeHas(facts, facts', GameOver);
    AlikeHas(facts, facts', MatchLeft);
    hide Has, Alike, ClutchEnd, INITIAL;
  }

  // ----- The detector -----

  lemma MirrorPlain(events: seq<Event>)
    requires forall e :: e in events ==> e.kind !in {RoundEnded, RoundWon, RoundLost, TeamChanged}
    ensures MirrorTrace(events) == events
  {
  }

  lemma MirrorOpening(m: DetectorMemory, entered: bool, s: GameState)
    ensures Opening(MirrorMemory(m), entered, MirrorState(s)) == MirrorTrace(Opening(m, entered, s))
  {
  }

  lemma MirrorRestoration(m: DetectorMemory, s: GameState)
    ensures Restoration(MirrorMemory(m), MirrorState(s)) == MirrorTrace(Restoration(m, s))
  {
  }

  /** Events are stamped with nothing that the mirror touches. */
  lemma StampMirror(s: GameState)
    ensures forall k :: Make(k, MirrorState(s)) == Make(k, s)
    ensures forall c, k :: When(c, k, MirrorState(s)) == When(c, k, s)
    ensures forall k, p, c :: Rise(k, p, c, MirrorState(s)) == Rise(k, p, c, s)
    ensures forall k, p, c :: Onset(k, p, c, MirrorState(s)) == Onset(k, p, c, s)
  {
  }

  lemma MirrorKills(p: GameState, s: GameState)
    ensures Alike(Kills(MirrorState(p), MirrorState(s)), Kills(p, s))
    ensures s.mapMode != Some("retakes") ==> Kills(MirrorState(p), MirrorState(s)) == Kills(p, s)
  {
    StampMirror(s);
    var kill := Rise(PlayerKill, p.roundKills, s.roundKills, s);
    var k, k' := Kills(p, s), Kills(MirrorState(p), MirrorState(s));
    hide Rise;
    SansCandidates(kill, k[|kill|..]);
    SansCandidates(kill, k'[|kill|..]);
    assert k == kill + k[|kill|..] && k' == kill + k'[|kill|..];
  }

  lemma SansCandidates(a: seq<Event>, c: seq<Event>)
    requires |c| <= 1 && (c != [] ==> c[0].kind == AceCandidate)
    ensures Sans(a + c) == Sans(a)
  {
    SansConcat(a, c);
    assert c != [] ==> c[1..] == [];
  }

  lemma MirrorPairwise(p: GameState, s: GameState)
    ensures Alike(Pairwise(MirrorState(p), MirrorState(s)), MirrorTrace(Pairwise(p, s)))
    ensures s.mapMode != Some("retakes") ==> Pairwise(MirrorState(p), MirrorState(s)) == MirrorTrace(Pairwise(p, s))
  {
    MirrorPlain(Pairwise(p, s));
    hide MirrorTrace, Pairwise;
    if p.localPlayerValid && s.localPlayerValid {
      MirrorKills(p, s);
      MirrorRest(p, s);
      PairwiseParts(p, s);
      PairwiseParts(MirrorState(p), MirrorState(s));
      hide Kills, Health, PairwiseRest, MirrorState, Alike;
      var h, k, k', r := Health(p, s), Kills(p, s), Kills(MirrorState(p), MirrorState(s)), PairwiseRest(p, s);
      AlikeRefl(h);
      AlikeRefl(r);
      AlikeConcat(h, h, k', k);
      AlikeConcat(h + k', h + k, r, r);
    } else {
      NoPairwise(p, s);
      NoPairwise(MirrorState(p), MirrorState(s));
    }
  }

  lemma NoPairwise(p: GameState, s: GameState)
    requires !(p.localPlayerValid && s.localPlayerValid)
    ensures Pairwise(p, s) == []
  {
  }

  lemma MirrorRest(p: GameState, s: GameState)
    ensures Health(MirrorState(p), MirrorState(s)) == Health(p, s)
    ensures PairwiseRest(MirrorState(p), MirrorState(s)) == PairwiseRest(p, s)
  {
    StampMirror(s);
    hide Rise, Onset, When;
  }

  lemma MirrorBomb(p: GameState, s: GameState)
    ensures BombChanges(MirrorState(p), MirrorState(s)) == MirrorTrace(BombChanges(p, s))
  {
  }

  lemma MirrorNameInjective(a: Option<string>, b: Option<string>)
    ensures (MirrorName(a) == MirrorName(b)) == (a == b)
  {
  }

  lemma MirrorRoundFields(m: DetectorMemory, p: GameState, s: GameState)
    ensures LastEndedAfter(MirrorMemory(m), MirrorState(p), MirrorState(s)) == LastEndedAfter(m, p, s)
    ensures OutcomeDue(MirrorMemory(m), MirrorState(p), MirrorState(s)) == OutcomeDue(m, p, s)
    ensures OutcomeAfter(MirrorMemory(m), MirrorState(p), MirrorState(s)) == OutcomeAfter(m, p, s)
    ensures OutcomeTeam(MirrorMemory(m), MirrorState(s)) == MirrorName(OutcomeTeam(m, s))
  {
  }

  lemma MirrorRoundClose(m: DetectorMemory, p: GameState, s: GameState)
    ensures RoundClose(MirrorMemory(m), MirrorState(p), MirrorState(s)) == MirrorTrace(RoundClose(m, p, s))
  {
    MirrorRoundFields(m, p, s);
    MirrorNameInjective(s.roundWinner, OutcomeTeam(m, s));
    MirrorConcat(RoundEnd(m, p, s), Outcome(m, p, s));
    assert MirrorTeam("") == "" by { assert |"CT"| == 2 && |"T"| == 1; }
    hide LastEndedAfter, OutcomeDue, OutcomeTeam, MirrorTeam;
    var m', p', s' := MirrorMemory(m), MirrorState(p), MirrorState(s);
    assert RoundEnd(m', p', s') == MirrorTrace(RoundEnd(m, p, s));
    assert Outcome(m', p', s') == MirrorTrace(Outcome(m, p, s));
  }

  lemma MirrorPhases(m: DetectorMemory, p: GameState, s: GameState)
    ensures PhaseChanges(MirrorMemory(m), MirrorState(p), MirrorState(s)) == MirrorTrace(PhaseChanges(m, p, s))
  {
    StampMirror(s);
    MirrorNameInjective(s.playerTeam, m.localTeam);
    hide MirrorTeam, When;
    assert TeamChange(MirrorMemory(m), MirrorState(s)) == MirrorTrace(TeamChange(m, s));
    assert RoundPhases(MirrorState(p), MirrorState(s)) == RoundPhases(p, s);
    hide TeamChange, RoundPhases;
    var a, b, c := RoundPhases(p, s), TeamChange(m, s), When(GameOverStarted(p, s), GameOver, s);
    MirrorPlain(a);
    MirrorPlain(c);
    MirrorConcat(a, b);
    MirrorConcat(a + b, c);
  }

  lemma MirrorAdvanceMemory(m: DetectorMemory, p: GameState, s: GameState, entered: bool)
    ensures Advance(MirrorMemory(m), MirrorState(p), MirrorState(s), entered).0 == MirrorMemory(Advance(m, p, s, entered).0)
  {
    MirrorRoundFields(m, p, s);
    MirrorRemember(m, s);
    hide Opening, Restoration, Changes, MirrorTeam, LastEndedAfter, OutcomeAfter, Remember;
  }

  lemma MirrorRemember(m: DetectorMemory, s: GameState)
    ensures Remember(MirrorMemory(m), MirrorState(s)) == MirrorMemory(Remember(m, s))
  {
  }

  lemma MirrorAdvance(m: DetectorMemory, p: GameState, s: GameState, entered: bool)
    ensures Alike(Advance(MirrorMemory(m), MirrorState(p), MirrorState(s), entered).1, MirrorTrace(Advance(m, p, s, entered).1))
    ensures s.mapMode != Some("retakes") ==>
      Advance(MirrorMemory(m), MirrorState(p), MirrorState(s), entered).1 == MirrorTrace(Advance(m, p, s, entered).1)
    ensures Advance(MirrorMemory(m), MirrorState(p), MirrorState(s), entered).0 == MirrorMemory(Advance(m, p, s, entered).0)
  {
    MirrorAdvanceMemory(m, p, s, entered);
    var m', p', s' := MirrorMemory(m), MirrorState(p), MirrorState(s);
    assert s'.mapMode == s.mapMode;
    hide Opening, Restoration, Changes, MirrorTrace, Alike, MirrorMemory, MirrorState, Remember, LastEndedAfter, OutcomeAfter;
    MirrorOpening(m, entered, s);
    MirrorRestoration(m, s);
    MirrorChanges(m, p, s);
    var a, b, c := Opening(m, entered, s), Restoration(m, s), Changes(m, p, s);
    MirrorConcat(a, b);
    MirrorConcat(a + b, c);
    AlikeRefl(MirrorTrace(a + b));
    AlikeConcat(MirrorTrace(a + b), MirrorTrace(a + b), Changes(m', p', s'), MirrorTrace(c));
  }

  lemma AlikeRefl(a: seq<Event>)
    ensures Alike(a, a)
  {
  }

  lemma MirrorChanges(m: DetectorMemory, p: GameState, s: GameState)
    ensures Alike(Changes(MirrorMemory(m), MirrorState(p), MirrorState(s)), MirrorTrace(Changes(m, p, s)))
    ensures s.mapMode != Some("retakes") ==>
      Changes(MirrorMemory(m), MirrorState(p), MirrorState(s)) == MirrorTrace(Changes(m, p, s))
  {
    hide Pairwise, BombChanges, RoundClose, PhaseChanges, MirrorTrace, MirrorMemory, MirrorState, Alike;
    MirrorPairwise(p, s);
    MirrorBomb(p, s);
    MirrorRoundClose(m, p, s);
    MirrorPhases(m, p, s);
    var d, f, g, h := Pairwise(p, s), BombChanges(p, s), RoundClose(m, p, s), PhaseChanges(m, p, s);
    var d' := Pairwise(MirrorState(p), MirrorState(s));
    MirrorConcat(d, f);
    MirrorConcat(d + f, g);
    MirrorConcat(d + f + g, h);
    AlikeRefl(MirrorTrace(f));
    AlikeRefl(MirrorTrace(g));
    AlikeRefl(MirrorTrace(h));
    AlikeConcat(d', MirrorTrace(d), MirrorTrace(f), MirrorTrace(f));
    AlikeConcat(d' + MirrorTrace(f), MirrorTrace(d + f), MirrorTrace(g), MirrorTrace(g));
    AlikeConcat(d' + MirrorTrace(f) + MirrorTrace(g), MirrorTrace(d + f + g), MirrorTrace(h), MirrorTrace(h));
  }

  lemma MirrorFirst(m: DetectorMemory, s: GameState)
    requires s.payloadValid && m.previous.None?
    ensures Detect(MirrorMemory(m), MirrorState(s)).1 == MirrorTrace(Detect(m, s).1)
    ensures Detect(MirrorMemory(m), MirrorState(s)).0 == MirrorMemory(Detect(m, s).0)
  {
  }

  lemma MirrorLeave(m: DetectorMemory, s: GameState)
    requires s.payloadValid && Leaves(m, s)
    ensures Detect(MirrorMemory(m), MirrorState(s)).1 == MirrorTrace(Detect(m, s).1)
    ensures Detect(MirrorMemory(m), MirrorState(s)).0 == MirrorMemory(Detect(m, s).0)
  {
  }

  lemma MirrorEntry(m: DetectorMemory, s: GameState)
    ensures Entry(MirrorMemory(m), MirrorState(s)) == MirrorMemory(Entry(m, s))
    ensures Enters(MirrorMemory(m), MirrorState(s)) == Enters(m, s) && Leaves(MirrorMemory(m), MirrorState(s)) == Leaves(m, s)
  {
  }

  lemma MirrorDetect(m: DetectorMemory, s: GameState)
    ensures Alike(Detect(MirrorMemory(m), MirrorState(s)).1, MirrorTrace(Detect(m, s).1))
    ensures s.mapMode != Some("retakes") ==> Detect(MirrorMemory(m), MirrorState(s)).1 == MirrorTrace(Detect(m, s).1)
    ensures Detect(MirrorMemory(m), MirrorState(s)).0 == MirrorMemory(Detect(m, s).0)
  {
    if !s.payloadValid {
      MirrorPlain([]);
    } else if m.previous.None? {
      MirrorFirst(m, s);
    } else if Leaves(m, s) {
      MirrorLeave(m, s);
    } else {
      MirrorEntry(m, s);
      MirrorAdvance(Entry(m, s), m.previous.value, s, Enters(m, s));
      hide Advance, MirrorTrace, MirrorTeam, Entry, Enters, Leaves, Alike;
    }
  }

  // ----- The resolver -----

  lemma MirrorSeen(r: Resolver, snap: Snapshot)
    ensures Seen(MirrorResolver(r), MirrorSnapshot(snap)) == Seen(r, snap)
  {
  }

  lemma MirrorInterpret(cfg: Config, r: Resolver, snap: Snapshot, us: nat)
    requires r.supplement == Some(snap)
    ensures Interpret(cfg, MirrorResolver(r), MirrorSnapshot(snap), us).1 == Interpret(cfg, r, snap, us).1
    ensures Interpret(cfg, MirrorResolver(r), MirrorSnapshot(snap), us).0 == MirrorResolver(Interpret(cfg, r, snap, us).0)
  {
    hide MirrorTeam, PerspectiveForTeam, MirrorCounts;
    MirrorObserve(r, snap);
    var o := Observe(r, snap);
    hide Observe, EvaluateClutch, EvaluateAce;
    MirrorEvaluateClutch(o, us);
    MirrorEvaluateAce(cfg, EvaluateClutch(o, us).0, us);
  }

  lemma MirrorWithCounts(r: Resolver, snap: Snapshot)
    ensures WithCounts(MirrorResolver(r), MirrorSnapshot(snap)) == MirrorResolver(WithCounts(r, snap))
  {
  }

  lemma MirrorRoster(r: Resolver, snap: Snapshot)
    ensures WithRoster(MirrorResolver(r), MirrorSnapshot(snap)) == MirrorResolver(WithRoster(r, snap))
  {
    MirrorSeen(r, snap);
    hide Seen, MirrorCounts;
  }

  lemma MirrorObserve(r: Resolver, snap: Snapshot)
    ensures Observe(MirrorResolver(r), MirrorSnapshot(snap)) == MirrorResolver(Observe(r, snap))
  {
    hide WithCounts, WithRoster, MirrorResolver, MirrorSnapshot;
    MirrorWithCounts(r, snap);
    MirrorRoster(WithCounts(r, snap), snap);
  }

  lemma MirrorEvaluateClutch(r: Resolver, us: nat)
    ensures EvaluateClutch(MirrorResolver(r), us).1 == EvaluateClutch(r, us).1
    ensures EvaluateClutch(MirrorResolver(r), us).0 == MirrorResolver(EvaluateClutch(r, us).0)
  {
    hide Seen, MirrorTeam;
    if r.supplement.Some? {
      MirrorSeen(r, r.supplement.value);
    }
  }

  lemma MirrorEvaluateAce(cfg: Config, r: Resolver, us: nat)
    ensures EvaluateAce(cfg, MirrorResolver(r), us).1 == EvaluateAce(cfg, r, us).1
    ensures EvaluateAce(cfg, MirrorResolver(r), us).0 == MirrorResolver(EvaluateAce(cfg, r, us).0)
  {
    hide Seen, MirrorTeam;
    if r.supplement.Some? {
      MirrorSeen(r, r.supplement.value);
    }
  }

  lemma MirrorLocalPlayer(r: Resolver, s: GameState, facts: seq<Event>)
    ensures WithLocalPlayer(MirrorResolver(r), MirrorState(s), MirrorTrace(facts)) ==
      MirrorResolver(WithLocalPlayer(r, s, facts))
  {
    MirrorHas(facts, LocalPlayerAcquired);
    MirrorHas(facts, PlayerDied);
    MirrorHas(facts, PlayerRespawned);
    hide Has, MirrorTrace, MirrorTeam, MirrorCounts;
  }

  lemma MirrorLifecycle(r: Resolver, s: GameState)
    ensures WithLifecycle(MirrorResolver(r), MirrorState(s)) == MirrorResolver(WithLifecycle(r, s))
  {
  }

  lemma MirrorBegun(r: Resolver, s: GameState)
    ensures Begun(MirrorResolver(r), MirrorState(s)) == MirrorResolver(Begun(r, s))
  {
  }

  lemma MirrorBaseline(cfg: Config, r: Resolver, snap: Snapshot)
    ensures WithBaseline(cfg, MirrorResolver(r), MirrorSnapshot(snap)) == MirrorResolver(WithBaseline(cfg, r, snap))
  {
    MirrorSeen(r, snap);
    hide Seen, MirrorTeam, MirrorCounts;
  }

  lemma MirrorWithout(r: Resolver)
    ensures WithoutCounts(MirrorResolver(r)) == MirrorResolver(WithoutCounts(r))
  {
  }

  lemma MirrorRoundStart(cfg: Config, r: Resolver, s: GameState)
    ensures WithRoundStart(cfg, MirrorResolver(r), MirrorState(s)) == MirrorResolver(WithRoundStart(cfg, r, s))
  {
    var b := Begun(r, s);
    MirrorBegun(r, s);
    if b.supplement.Some? {
      MirrorBaseline(cfg, b, b.supplement.value);
    }
    MirrorWithout(if b.supplement.Some? && FreshAt(cfg, b.supplement.value, s.relativeUs)
                  then WithBaseline(cfg, b, b.supplement.value) else b);
    assert MirrorResolver(b).supplement.Some? == b.supplement.Some?;
    hide Begun, WithBaseline, WithoutCounts, MirrorTeam, MirrorCounts;
  }

  lemma MirrorPrepare(cfg: Config, r: Resolver, s: GameState, facts: seq<Event>)
    ensures Prepare(cfg, MirrorResolver(r), MirrorState(s), MirrorTrace(facts)) == MirrorResolver(Prepare(cfg, r, s, facts))
  {
    MirrorHas(facts, MatchEntered);
    MirrorHas(facts, RoundStarted);
    assert MirrorResolver(INITIAL) == INITIAL;
    hide Has, MirrorTrace, MirrorResolver, MirrorState, WithLocalPlayer, WithLifecycle, WithRoundStart;
    var r0 := if Has(facts, MatchEntered) then INITIAL else r;
    MirrorLocalPlayer(r0, s, facts);
    MirrorLifecycle(WithLocalPlayer(r0, s, facts), s);
    MirrorRoundStart(cfg, WithLifecycle(WithLocalPlayer(r0, s, facts), s), s);
  }

  lemma MirrorEvaluate(cfg: Config, r: Resolver, us: nat)
    ensures Evaluate(cfg, MirrorResolver(r), us).1 == Evaluate(cfg, r, us).1
    ensures Evaluate(cfg, MirrorResolver(r), us).0 == MirrorResolver(Evaluate(cfg, r, us).0)
  {
    hide Interpret, MirrorTeam, MirrorCounts;
    if CurrentRoundSupplement(cfg, r, us) {
      MirrorInterpret(cfg, r, r.supplement.value, us);
    }
  }

  lemma MirrorClose(r: Resolver, us: nat, facts: seq<Event>)
    ensures Close(MirrorResolver(r), us, MirrorTrace(facts)).1 == Close(r, us, facts).1
    ensures Close(MirrorResolver(r), us, MirrorTrace(facts)).0 == MirrorResolver(Close(r, us, facts).0)
  {
    MirrorHas(facts, RoundEnded);
    MirrorHas(facts, GameOver);
    MirrorHas(facts, MatchLeft);
    assert MirrorResolver(INITIAL) == INITIAL;
    MirrorClutchEnd(r, us);
    hide Has, MirrorTrace, MirrorTeam, MirrorCounts, ClutchEnd;
  }

  lemma MirrorClutchEnd(r: Resolver, us: nat)
    ensures ClutchEnd(MirrorResolver(r), us).1 == ClutchEnd(r, us).1
    ensures ClutchEnd(MirrorResolver(r), us).0 == MirrorResolver(ClutchEnd(r, us).0)
  {
  }

  lemma MirrorProcessGsi(cfg: Config, r: Resolver, s: GameState, facts: seq<Event>)
    ensures ProcessGsi(cfg, MirrorResolver(r), MirrorState(s), MirrorTrace(facts)).1 == ProcessGsi(cfg, r, s, facts).1
    ensures ProcessGsi(cfg, MirrorResolver(r), MirrorState(s), MirrorTrace(facts)).0 ==
      MirrorResolver(ProcessGsi(cfg, r, s, facts).0)
  {
    hide Prepare, Evaluate, Close, MirrorTrace, MirrorResolver;
    MirrorPrepare(cfg, r, s, facts);
    var p := Prepare(cfg, r, s, facts);
    MirrorEvaluate(cfg, p, s.relativeUs);
    MirrorClose(Evaluate(cfg, p, s.relativeUs).0, s.relativeUs, facts);
  }

  lemma MirrorAccept(r: Resolver, snap: Snapshot)
    ensures Accepts(MirrorResolver(r), MirrorSnapshot(snap)) == Accepts(r, snap)
    ensures Accepted(MirrorResolver(r), MirrorSnapshot(snap)) == MirrorResolver(Accepted(r, snap))
    ensures MirrorSnapshot(snap).relativeUs == snap.relativeUs
    ensures MirrorResolver(Accepted(r, snap)).latest.Some? == Accepted(r, snap).latest.Some?
  {
  }

  lemma MirrorProcessSupplement(cfg: Config, r: Resolver, snap: Snapshot)
    ensures ProcessSupplement(cfg, MirrorResolver(r), MirrorSnapshot(snap)).1 == ProcessSupplement(cfg, r, snap).1
    ensures ProcessSupplement(cfg, MirrorResolver(r), MirrorSnapshot(snap)).0 ==
      MirrorResolver(ProcessSupplement(cfg, r, snap).0)
  {
    MirrorAccept(r, snap);
    if Accepts(r, snap) {
      AcceptedHolds(r, snap);
      MirrorInterpret(cfg, Accepted(r, snap), snap, snap.relativeUs);
    }
    hide Interpret, Accepts, Accepted, MirrorResolver, MirrorSnapshot;
  }

  lemma AcceptedHolds(r: Resolver, snap: Snapshot)
    ensures Accepted(r, snap).supplement == Some(snap)
  {
  }

  // ----- Whole runs -----

  function MirrorObservation(o: Observation): Observation {
    match o
    case Reported(s) => Reported(MirrorState(s))
    case Counted(snap) => Counted(MirrorSnapshot(snap))
  }

  function MirrorRun(obs: seq<Observation>): (r: seq<Observation>)
    ensures |r| == |obs| && forall k :: 0 <= k < |r| ==> r[k] == MirrorObservation(obs[k])
  {
    seq(|obs|, k requires 0 <= k < |obs| => MirrorObservation(obs[k]))
  }

  function MirrorSpine(sp: SpineState): SpineState {
    SpineState(MirrorMemory(sp.detector), MirrorResolver(sp.resolver))
  }

  lemma MirrorFeed(cfg: Config, sp: SpineState, o: Observation)
    requires Sound(cfg, sp)
    ensures Feed(cfg, MirrorSpine(sp), MirrorObservation(o)).0 == MirrorSpine(Feed(cfg, sp, o).0)
    ensures Alike(Feed(cfg, MirrorSpine(sp), MirrorObservation(o)).1, MirrorTrace(Feed(cfg, sp, o).1))
    ensures !InRetakes(o) ==> Feed(cfg, MirrorSpine(sp), MirrorObservation(o)).1 == MirrorTrace(Feed(cfg, sp, o).1)
  {
    hide Detect, ProcessGsi, ProcessSupplement, MirrorTrace, MirrorMemory, MirrorResolver, Valid, Inv, MirrorTeam,
         MirrorCounts, Alike;
    match o
    case Reported(s) =>
      if s.payloadValid {
        var facts, facts' := Detect(sp.detector, s).1, Detect(MirrorMemory(sp.detector), MirrorState(s)).1;
        MirrorDetect(sp.detector, s);
        CandidatesUnread(cfg, MirrorResolver(sp.resolver), MirrorState(s), facts', MirrorTrace(facts));
        MirrorProcessGsi(cfg, sp.resolver, s, facts);
        GsiKinds(cfg, sp.resolver, s, facts);
        var semantic := ProcessGsi(cfg, sp.resolver, s, facts).1;
        MirrorConcat(facts, semantic);
        MirrorPlain(semantic);
        AlikeRefl(semantic);
        AlikeConcat(facts', MirrorTrace(facts), semantic, semantic);
      } else {
        MirrorPlain([]);
        AlikeRefl([]);
      }
    case Counted(snap) =>
      MirrorProcessSupplement(cfg, sp.resolver, snap);
      SupplementKinds(cfg, sp.resolver, snap);
      MirrorPlain(ProcessSupplement(cfg, sp.resolver, snap).1);
      AlikeRefl(ProcessSupplement(cfg, sp.resolver, snap).1);
  }

  predicate InRetakes(o: Observation) { o.Reported? && o.state.mapMode == Some("retakes") }

  lemma MirrorStart()
    ensures MirrorSpine(START) == START
    ensures MirrorTrace([]) == [] && Alike([], [])
  {
  }

  lemma ContextMirrored(sp: SpineState)
    ensures MirrorSpine(sp).resolver.context == sp.resolver.context
  {
  }

  /** Swapping CT and T in every snapshot and supplement of a run: every context is the same,
      and the trace is the same but for swapped team names and, in retakes mode only, the
      thresholds of ACE_CANDIDATE. */
  lemma {:induction false} MirrorSymmetry(cfg: Config, obs: seq<Observation>, n: nat)
    requires n <= |obs|
    ensures StateAt(cfg, MirrorRun(obs), n) == MirrorSpine(StateAt(cfg, obs, n))
    ensures StateAt(cfg, MirrorRun(obs), n).resolver.context == StateAt(cfg, obs, n).resolver.context
    ensures Alike(WholeTrace(cfg, MirrorRun(obs), n), MirrorTrace(WholeTrace(cfg, obs, n)))
    ensures (forall k :: 0 <= k < n ==> !InRetakes(obs[k])) ==>
      WholeTrace(cfg, MirrorRun(obs), n) == MirrorTrace(WholeTrace(cfg, obs, n))
  {
    hide Feed, Sound, MirrorSpine, MirrorObservation, MirrorRun, MirrorTrace, Alike, START, InRetakes;
    MirrorStart();
    ContextMirrored(StateAt(cfg, obs, n));
    if n > 0 {
      MirrorSymmetry(cfg, obs, n - 1);
      AlwaysSound(cfg, obs, n - 1);
      MirrorFeed(cfg, StateAt(cfg, obs, n - 1), obs[n - 1]);
      var trace, batch := WholeTrace(cfg, obs, n - 1), BatchAt(cfg, obs, n - 1);
      MirrorConcat(trace, batch);
      AlikeConcat(WholeTrace(cfg, MirrorRun(obs), n - 1), MirrorTrace(trace),
                  BatchAt(cfg, MirrorRun(obs), n - 1), MirrorTrace(batch));
    }
  }
}
