/** What the detector promises about every trace it can emit. */
module DetectorTheorems {
  import opened Telemetry
  import opened Traces
  import opened EventDetection

  const LIFE_KINDS := {LocalPlayerAcquired, LocalPlayerLost, LocalPlayerRestored}

  /** Kinds reserved for the semantic resolver. */
  const SEMANTIC_KINDS := {Ace, ClutchStarted, ClutchUpdated, ClutchEnded}

  // ----- Runs -----

  function After(m: DetectorMemory, ss: seq<GameState>): DetectorMemory {
    if ss == [] then m else Detect(After(m, ss[..|ss| - 1]), ss[|ss| - 1]).0
  }

  function Trace(m: DetectorMemory, ss: seq<GameState>): seq<Event> {
    if ss == [] then []
    else Trace(m, ss[..|ss| - 1]) + Detect(After(m, ss[..|ss| - 1]), ss[|ss| - 1]).1
  }

  /** What every reachable memory satisfies. */
  predicate Valid(m: DetectorMemory) {
    && (m.previous.None? ==> m == BLANK)
    && (m.lost ==> m.everAcquired && !m.previous.value.localPlayerValid)
    && (m.everAcquired ==> m.previous.Some? && m.previous.value.mapName.Some?)
  }

  lemma DetectKeepsValid(m: DetectorMemory, s: GameState)
    requires Valid(m)
    ensures Valid(Detect(m, s).0)
  {
  }

  /** The restore path and the pairwise path never report the same change twice. */
  lemma RestoreExcludesPairwise(m: DetectorMemory, s: GameState)
    requires Valid(m) && m.previous.Some?
    requires Restoration(Entry(m, s), s) != []
    ensures Pairwise(m.previous.value, s) == []
    ensures Opening(Entry(m, s), Enters(m, s), s) == []
  {
  }

  // ----- The pairwise section in three parts -----

  /** What two adjacent local snapshots reveal besides health and kills. */
  function PairwiseRest(p: GameState, s: GameState): seq<Event> {
    Rise(PlayerHeadshotKill, p.roundHeadshotKills, s.roundHeadshotKills, s)
    + Rise(PlayerAssist, p.assists, s.assists, s)
    + Onset(PlayerFlashed, p.flashed, s.flashed, s)
    + Onset(PlayerSmoked, p.smoked, s.smoked, s)
    + Onset(PlayerBurning, p.burning, s.burning, s)
    + Rise(MvpGained, p.mvps, s.mvps, s)
  }

  lemma PairwiseParts(p: GameState, s: GameState)
    requires p.localPlayerValid && s.localPlayerValid
    ensures Pairwise(p, s) == Health(p, s) + Kills(p, s) + PairwiseRest(p, s)
  {
    hide Health, Kills, Rise, Onset;
  }

  // ----- Local-player lifecycle -----

  datatype Life = Unseen | Attached | Away | BrokenLife

  /** At most one acquisition for each match, then strictly alternating loss and restoration. */
  function LifeDelta(q: Life, e: Event): Life {
    if q == BrokenLife then BrokenLife
    else match e.kind
      case MatchEntered => Unseen
      case MatchLeft => Unseen
      case LocalPlayerAcquired => if q == Unseen then Attached else BrokenLife
      case LocalPlayerLost => if q == Attached then Away else BrokenLife
      case LocalPlayerRestored => if q == Away then Attached else BrokenLife
      case _ => q
  }

  function LifeOf(m: DetectorMemory): Life {
    if m.lost then Away else if m.everAcquired then Attached else Unseen
  }

  /** Runs an automaton over one batch, section by section. */
  lemma FoldAdvance<Q>(delta: (Q, Event) -> Q, q: Q, m: DetectorMemory, p: GameState, s: GameState, entered: bool)
    ensures Fold(delta, q, Advance(m, p, s, entered).1) ==
      Fold(delta, Fold(delta, Fold(delta, q, Opening(m, entered, s)), Restoration(m, s)), Changes(m, p, s))
  {
    var a, b, c := Opening(m, entered, s), Restoration(m, s), Changes(m, p, s);
    FoldConcat(delta, q, a, b);
    FoldConcat(delta, q, a + b, c);
  }

  lemma LifeStep(m: DetectorMemory, s: GameState)
    requires Valid(m)
    ensures Fold(LifeDelta, LifeOf(m), Detect(m, s).1) == LifeOf(Detect(m, s).0)
  {
    if s.payloadValid && m.previous.Some? && !Leaves(m, s) {
      LifeOpening(m, s);
      LifeAdvance(Entry(m, s), LifeOf(m), m.previous.value, s, Enters(m, s));
    } else if s.payloadValid && m.previous.None? {
      FoldConcat(LifeDelta, LifeOf(m), When(s.mapName.Some?, MatchEntered, s),
                 When(s.mapName.Some? && s.localPlayerValid, LocalPlayerAcquired, s));
    }
  }

  lemma LifeAdvance(m: DetectorMemory, q: Life, p: GameState, s: GameState, entered: bool)
    requires m.lost ==> m.everAcquired
    requires Fold(LifeDelta, q, Opening(m, entered, s)) ==
      if m.lost || LostNow(m, s) then Away else if m.everAcquired || AcquiredNow(m, s) then Attached else Unseen
    ensures Fold(LifeDelta, q, Advance(m, p, s, entered).1) == LifeOf(Advance(m, p, s, entered).0)
  {
    hide Opening, Restoration, Changes;
    var next := LifeOf(Advance(m, p, s, entered).0);
    LifeRestoration(m, Fold(LifeDelta, q, Opening(m, entered, s)), s);
    FoldAdvance(LifeDelta, q, m, p, s, entered);
    ChangesKinds(m, p, s);
    FoldSkip(LifeDelta, next, Changes(m, p, s));
  }

  lemma NoneOf(a: seq<Event>, b: seq<Event>, c: seq<Event>, d: seq<Event>, kinds: set<EventKind>)
    requires forall e :: e in a || e in b || e in c || e in d ==> e.kind !in kinds
    ensures forall e :: e in a + b + c + d ==> e.kind !in kinds
  {
  }

  lemma ChangesKinds(m: DetectorMemory, p: GameState, s: GameState)
    ensures forall e :: e in Changes(m, p, s) ==> e.kind !in {MatchEntered, MatchLeft} + LIFE_KINDS + SEMANTIC_KINDS
  {
    hide Pairwise, BombChanges, RoundClose, PhaseChanges;
    NoneOf(Pairwise(p, s), BombChanges(p, s), RoundClose(m, p, s), PhaseChanges(m, p, s),
           {MatchEntered, MatchLeft} + LIFE_KINDS + SEMANTIC_KINDS);
  }

  lemma LifeOpening(m: DetectorMemory, s: GameState)
    requires Valid(m) && m.previous.Some? && !Leaves(m, s)
    ensures
      var e := Entry(m, s);
      Fold(LifeDelta, LifeOf(m), Opening(e, Enters(m, s), s)) ==
        if e.lost || LostNow(e, s) then Away
        else if e.everAcquired || AcquiredNow(e, s) then Attached
        else Unseen
  {
    var e := Entry(m, s);
    var a, b, c := When(Enters(m, s), MatchEntered, s), When(AcquiredNow(e, s), LocalPlayerAcquired, s),
                   When(LostNow(e, s), LocalPlayerLost, s);
    FoldConcat(LifeDelta, LifeOf(m), a, b);
    FoldConcat(LifeDelta, LifeOf(m), a + b, c);
    assert Fold(LifeDelta, LifeOf(m), a) == LifeOf(e);
  }

  /** A restoration announces itself first; what it then reports does not change the point of view. */
  lemma RestorationParts(m: DetectorMemory, s: GameState) returns (rest: seq<Event>)
    requires RestoredNow(m, s)
    ensures Restoration(m, s) == [Make(LocalPlayerRestored, s)] + rest
    ensures forall e :: e in rest ==> e.kind in {PlayerRespawned, MvpGained, PlayerAssist}
  {
    hide When, Rise;
    var a, b, c := When(IsZero(m.localHp) && Positive(s.health), PlayerRespawned, s),
                   Rise(MvpGained, m.localMvps, s.mvps, s), Rise(PlayerAssist, m.localAssists, s.assists, s);
    rest := a + b + c;
    Regroup([Make(LocalPlayerRestored, s)], a, b, c);
  }

  lemma LifeRestoration(m: DetectorMemory, q: Life, s: GameState)
    requires RestoredNow(m, s) ==> q == Away
    ensures Fold(LifeDelta, q, Restoration(m, s)) == if RestoredNow(m, s) then Attached else q
  {
    if RestoredNow(m, s) {
      var first := Make(LocalPlayerRestored, s);
      var rest := RestorationParts(m, s);
      assert first.kind == LocalPlayerRestored;
      forall e | e in rest ensures LifeDelta(Attached, e) == Attached {
      }
      assert LifeDelta(q, first) == Attached;
      hide Restoration, RestoredNow, Fold, LifeDelta, Make;
      FoldConcat(LifeDelta, q, [first], rest);
      FoldOne(LifeDelta, q, first);
      FoldSkip(LifeDelta, Attached, rest);
    }
  }

  /** For every stream, the lifecycle trace is accepted and ends where the flags say. */
  lemma {:induction false} LifecycleGrammar(ss: seq<GameState>)
    ensures Valid(After(BLANK, ss))
    ensures Fold(LifeDelta, Unseen, Trace(BLANK, ss)) == LifeOf(After(BLANK, ss)) != BrokenLife
  {
    if ss != [] {
      var init, s := ss[..|ss| - 1], ss[|ss| - 1];
      LifecycleGrammar(init);
      DetectKeepsValid(After(BLANK, init), s);
      LifeStep(After(BLANK, init), s);
      FoldConcat(LifeDelta, Unseen, Trace(BLANK, init), Detect(After(BLANK, init), s).1);
    }
  }

  // ----- Round outcomes -----

  datatype Rounds = Rounds(lastEnd: Option<int>, decided: bool) | BrokenRounds

  /** Adjacent ROUND_ENDED values differ; an outcome carries the value of the most recent
      ROUND_ENDED; at most one outcome follows each ROUND_ENDED; a round is won exactly when
      the winner it names is the team it names. */
  function RoundsDelta(q: Rounds, e: Event): Rounds {
    if q == BrokenRounds then BrokenRounds
    else match e.kind
      case MatchEntered => Rounds(None, false)
      case MatchLeft => Rounds(None, false)
      case RoundEnded =>
        if e.value.Some? && e.value != q.lastEnd then Rounds(e.value, false) else BrokenRounds
      case RoundWon =>
        if e.value.Some? && e.value == q.lastEnd && !q.decided && e.before == e.after then q.(decided := true) else BrokenRounds
      case RoundLost =>
        if e.value.Some? && e.value == q.lastEnd && !q.decided && e.before != e.after then q.(decided := true) else BrokenRounds
      case _ => q
  }

  /** The automaton knows what the memory knows, and a decided round is remembered. */
  predicate RoundsMatch(q: Rounds, m: DetectorMemory) {
    && q.Rounds?
    && q.lastEnd == m.lastEndedRound
    && (q.decided ==> m.lastOutcomeRound == m.lastEndedRound)
  }

  lemma RoundsClose(m: DetectorMemory, q: Rounds, p: GameState, s: GameState)
    requires RoundsMatch(q, m)
    ensures
      var q' := Fold(RoundsDelta, q, RoundClose(m, p, s));
      RoundsMatch(q', m.(lastEndedRound := LastEndedAfter(m, p, s), lastOutcomeRound := OutcomeAfter(m, p, s)))
  {
    var ended, outcome := RoundEnd(m, p, s), Outcome(m, p, s);
    FoldConcat(RoundsDelta, q, ended, outcome);
    assert Fold(RoundsDelta, q, ended) == if ended == [] then q else RoundsDelta(q, ended[0]);
    var mid := Fold(RoundsDelta, q, ended);
    assert Fold(RoundsDelta, mid, outcome) == if outcome == [] then mid else RoundsDelta(mid, outcome[0]);
  }

  lemma FoldChanges<Q>(delta: (Q, Event) -> Q, q: Q, m: DetectorMemory, p: GameState, s: GameState)
    ensures Fold(delta, q, Changes(m, p, s)) ==
      Fold(delta, Fold(delta, Fold(delta, Fold(delta, q, Pairwise(p, s)), BombChanges(p, s)),
                       RoundClose(m, p, s)), PhaseChanges(m, p, s))
  {
    hide Pairwise, BombChanges, RoundClose, PhaseChanges;
    var a, b, c, d := Pairwise(p, s), BombChanges(p, s), RoundClose(m, p, s), PhaseChanges(m, p, s);
    FoldConcat(delta, q, a, b);
    FoldConcat(delta, q, a + b, c);
    FoldConcat(delta, q, a + b + c, d);
  }

  lemma RoundsIgnore(q: Rounds, a: seq<Event>)
    requires forall e :: e in a ==> e.kind !in {MatchEntered, MatchLeft, RoundEnded, RoundWon, RoundLost}
    ensures Fold(RoundsDelta, q, a) == q
  {
  }

  lemma RoundsChanges(m: DetectorMemory, q: Rounds, p: GameState, s: GameState)
    requires RoundsMatch(q, m)
    ensures RoundsMatch(Fold(RoundsDelta, q, Changes(m, p, s)),
                        m.(lastEndedRound := LastEndedAfter(m, p, s), lastOutcomeRound := OutcomeAfter(m, p, s)))
  {
    hide Pairwise, BombChanges, RoundClose, PhaseChanges, Changes, LastEndedAfter, OutcomeAfter, RoundsDelta, Fold;
    FoldChanges(RoundsDelta, q, m, p, s);
    RoundsIgnore(q, Pairwise(p, s));
    RoundsIgnore(q, BombChanges(p, s));
    RoundsClose(m, q, p, s);
    RoundsIgnore(Fold(RoundsDelta, q, RoundClose(m, p, s)), PhaseChanges(m, p, s));
  }

  /** Only MATCH_ENTERED or the round section moves the round automaton. */
  lemma RoundsAdvance(m: DetectorMemory, q: Rounds, p: GameState, s: GameState)
    requires RoundsMatch(q, m)
    ensures RoundsMatch(Fold(RoundsDelta, q, Advance(m, p, s, false).1), Advance(m, p, s, false).0)
  {
    hide Opening, Restoration, Changes, LastEndedAfter, OutcomeAfter;
    FoldAdvance(RoundsDelta, q, m, p, s, false);
    OpeningSansEntry(m, s);
    FoldSkip(RoundsDelta, q, Opening(m, false, s));
    FoldSkip(RoundsDelta, q, Restoration(m, s));
    RoundsChanges(m, q, p, s);
  }

  lemma OpeningSansEntry(m: DetectorMemory, s: GameState)
    ensures forall e :: e in Opening(m, false, s) ==> e.kind in {LocalPlayerAcquired, LocalPlayerLost}
    ensures Opening(m, true, s) == [Make(MatchEntered, s)] + Opening(m, false, s)
  {
  }

  /** MATCH_ENTERED comes first, so what the automaton knew before does not matter. */
  lemma FoldEntered<Q>(delta: (Q, Event) -> Q, q: Q, q': Q, m: DetectorMemory, p: GameState, s: GameState)
    requires delta(q, Make(MatchEntered, s)) == q'
    ensures Fold(delta, q, Advance(m, p, s, true).1) == Fold(delta, q', Advance(m, p, s, false).1)
  {
    hide Opening, Restoration, Changes;
    OpeningSansEntry(m, s);
    FoldAdvance(delta, q, m, p, s, true);
    FoldAdvance(delta, q', m, p, s, false);
    FoldConcat(delta, q, [Make(MatchEntered, s)], Opening(m, false, s));
  }

  lemma RoundsStep(m: DetectorMemory, q: Rounds, s: GameState)
    requires Valid(m) && RoundsMatch(q, m)
    ensures RoundsMatch(Fold(RoundsDelta, q, Detect(m, s).1), Detect(m, s).0)
  {
    hide Opening, Restoration, Changes, LastEndedAfter, OutcomeAfter;
    if s.payloadValid && m.previous.Some? && !Leaves(m, s) {
      var e, p := Entry(m, s), m.previous.value;
      if Enters(m, s) {
        RoundsAdvance(e, Rounds(None, false), p, s);
        FoldEntered(RoundsDelta, q, Rounds(None, false), e, p, s);
      } else {
        RoundsAdvance(e, q, p, s);
      }
    } else if s.payloadValid && m.previous.None? {
      FoldConcat(RoundsDelta, q, When(s.mapName.Some?, MatchEntered, s),
                 When(s.mapName.Some? && s.localPlayerValid, LocalPlayerAcquired, s));
    }
  }

  lemma {:induction false} OutcomeGrammar(ss: seq<GameState>)
    ensures Valid(After(BLANK, ss))
    ensures RoundsMatch(Fold(RoundsDelta, Rounds(None, false), Trace(BLANK, ss)), After(BLANK, ss))
  {
    if ss != [] {
      var init, s := ss[..|ss| - 1], ss[|ss| - 1];
      OutcomeGrammar(init);
      DetectKeepsValid(After(BLANK, init), s);
      var q := Fold(RoundsDelta, Rounds(None, false), Trace(BLANK, init));
      RoundsStep(After(BLANK, init), q, s);
      FoldConcat(RoundsDelta, Rounds(None, false), Trace(BLANK, init), Detect(After(BLANK, init), s).1);
    }
  }

  datatype Climb = Climb(last: Option<int>) | NotClimbing

  /** ROUND_ENDED values strictly increase. */
  function ClimbDelta(q: Climb, e: Event): Climb {
    if q.Climb? && e.kind == RoundEnded then
      if e.value.Some? && (q.last.None? || q.last.value < e.value.value) then Climb(e.value) else NotClimbing
    else q
  }

  function Last(p: GameState, ss: seq<GameState>): GameState {
    if ss == [] then p else ss[|ss| - 1]
  }

  /** Snapshots of one match whose round counter is always present and never goes back. */
  predicate RoundsCounted(p: GameState, ss: seq<GameState>) {
    if ss == [] then p.mapName.Some? && p.mapRound.Some?
    else
      var init, s := ss[..|ss| - 1], ss[|ss| - 1];
      && RoundsCounted(p, init)
      && s.payloadValid && s.mapName.Some? && s.mapRound.Some?
      && RoundNotBefore(Last(p, init), s)
  }

  predicate RoundNotBefore(p: GameState, s: GameState) {
    p.mapRound.Some? && s.mapRound.Some? ==> p.mapRound.value <= s.mapRound.value
  }

  lemma LastCounted(p: GameState, ss: seq<GameState>)
    requires RoundsCounted(p, ss)
    ensures Last(p, ss).mapName.Some? && Last(p, ss).mapRound.Some?
  {
  }

  lemma ClimbIgnore(q: Climb, a: seq<Event>)
    requires forall e :: e in a ==> e.kind != RoundEnded
    ensures Fold(ClimbDelta, q, a) == q
  {
  }

  lemma ClimbEnd(m: DetectorMemory, p: GameState, s: GameState)
    requires p.mapRound.Some? && s.mapRound.Some? && p.mapRound.value <= s.mapRound.value
    requires m.lastEndedRound.Some? ==> m.lastEndedRound.value <= p.mapRound.value
    ensures Fold(ClimbDelta, Climb(m.lastEndedRound), RoundEnd(m, p, s)) == Climb(LastEndedAfter(m, p, s))
    ensures LastEndedAfter(m, p, s).Some? ==> LastEndedAfter(m, p, s).value <= s.mapRound.value
  {
  }

  lemma ClimbAdvance(m: DetectorMemory, p: GameState, s: GameState)
    requires p.mapRound.Some? && s.mapRound.Some? && p.mapRound.value <= s.mapRound.value
    requires m.lastEndedRound.Some? ==> m.lastEndedRound.value <= p.mapRound.value
    ensures Fold(ClimbDelta, Climb(m.lastEndedRound), Advance(m, p, s, false).1) == Climb(LastEndedAfter(m, p, s))
    ensures LastEndedAfter(m, p, s).Some? ==> LastEndedAfter(m, p, s).value <= s.mapRound.value
  {
    hide Advance, Opening, Restoration, Changes, Pairwise, BombChanges, PhaseChanges, RoundEnd, Outcome, LastEndedAfter, ClimbDelta, Fold;
    var q, q' := Climb(m.lastEndedRound), Climb(LastEndedAfter(m, p, s));
    FoldAdvance(ClimbDelta, q, m, p, s, false);
    FoldChanges(ClimbDelta, q, m, p, s);
    OpeningSansEntry(m, s);
    ClimbIgnore(q, Opening(m, false, s));
    ClimbIgnore(q, Restoration(m, s));
    ClimbIgnore(q, Pairwise(p, s));
    ClimbIgnore(q, BombChanges(p, s));
    ClimbEnd(m, p, s);
    FoldConcat(ClimbDelta, q, RoundEnd(m, p, s), Outcome(m, p, s));
    ClimbIgnore(q', Outcome(m, p, s));
    ClimbIgnore(q', PhaseChanges(m, p, s));
  }

  /** With present, non-decreasing round counters the ended rounds strictly increase. */
  lemma {:induction false} EndedRoundsClimb(m: DetectorMemory, p: GameState, ss: seq<GameState>)
    requires m.previous == Some(p) && p.mapRound.Some? && RoundsCounted(p, ss)
    requires m.lastEndedRound.Some? ==> m.lastEndedRound.value <= p.mapRound.value
    ensures Last(p, ss).mapRound.Some? && After(m, ss).previous == Some(Last(p, ss))
    ensures Fold(ClimbDelta, Climb(m.lastEndedRound), Trace(m, ss)) == Climb(After(m, ss).lastEndedRound)
    ensures After(m, ss).lastEndedRound.Some? ==> After(m, ss).lastEndedRound.value <= Last(p, ss).mapRound.value
  {
    LastCounted(p, ss);
    if ss != [] {
      hide Advance, LastEndedAfter, ClimbDelta, Fold;
      var init, s := ss[..|ss| - 1], ss[|ss| - 1];
      EndedRoundsClimb(m, p, init);
      var m1, last := After(m, init), Last(p, init);
      LastCounted(p, init);
      ClimbAdvance(m1, last, s);
      AdvanceNext(m1, last, s);
      FoldConcat(ClimbDelta, Climb(m.lastEndedRound), Trace(m, init), Detect(m1, s).1);
    }
  }

  lemma AdvanceNext(m: DetectorMemory, p: GameState, s: GameState)
    ensures Advance(m, p, s, false).0.previous == Some(s)
    ensures Advance(m, p, s, false).0.lastEndedRound == LastEndedAfter(m, p, s)
  {
  }

  // ----- Counter conservation -----

  datatype Counter = Assists | Mvps

  /** A reading is what a snapshot of the local player itself says. */
  function Reading(c: Counter, s: GameState): Option<int> {
    if !s.localPlayerValid then None else match c case Assists => s.assists case Mvps => s.mvps
  }

  function KindOf(c: Counter): EventKind {
    match c case Assists => PlayerAssist case Mvps => MvpGained
  }

  /** The sum of the amounts that a trace reports for a kind. */
  function Amounts(kind: EventKind, trace: seq<Event>): int {
    if trace == [] then 0
    else (if trace[0].kind == kind && trace[0].amount.Some? then trace[0].amount.value else 0) + Amounts(kind, trace[1..])
  }

  /** The newest reading in a history of snapshots. */
  function LastReading(c: Counter, h: seq<GameState>): Option<int> {
    if h == [] then None
    else if Reading(c, h[|h| - 1]).Some? then Reading(c, h[|h| - 1])
    else LastReading(c, h[..|h| - 1])
  }

  predicate LocalSeen(h: seq<GameState>) {
    exists i :: 0 <= i < |h| && h[i].localPlayerValid
  }

  /** Another player was watched after the last snapshot of the local player. */
  predicate OtherSeenSince(h: seq<GameState>) {
    exists i :: 0 <= i < |h| && OtherObserved(h[i]) && forall j :: i <= j < |h| ==> !h[j].localPlayerValid
  }

  /** Can a change between the last reading in `h` and the next snapshot be noticed?
      Either the last snapshot is that reading, or another player was watched in between. */
  predicate GapVisible(c: Counter, h: seq<GameState>) {
    || (h != [] && Reading(c, h[|h| - 1]).Some?)
    || OtherSeenSince(h)
  }

  function Increment(c: Counter, h: seq<GameState>, s: GameState): int {
    if LastReading(c, h).Some? && Reading(c, s).Some? && Reading(c, s).value > LastReading(c, h).value
    then Reading(c, s).value - LastReading(c, h).value
    else 0
  }

  /** Positive increments between successive readings: all of them, or those across blind gaps. */
  function Gained(c: Counter, h: seq<GameState>): int {
    if h == [] then 0 else Gained(c, h[..|h| - 1]) + Increment(c, h[..|h| - 1], h[|h| - 1])
  }

  function GainedBlind(c: Counter, h: seq<GameState>): int {
    if h == [] then 0
    else GainedBlind(c, h[..|h| - 1])
         + if GapVisible(c, h[..|h| - 1]) then 0 else Increment(c, h[..|h| - 1], h[|h| - 1])
  }

  lemma {:induction false} AmountsConcat(kind: EventKind, a: seq<Event>, b: seq<Event>)
    ensures Amounts(kind, a + b) == Amounts(kind, a) + Amounts(kind, b)
    decreases |a|
  {
    if a == [] {
      assert a + b == b;
    } else {
      assert (a + b)[0] == a[0] && (a + b)[1..] == a[1..] + b;
      AmountsConcat(kind, a[1..], b);
    }
  }

  lemma {:induction false} AmountsNone(kind: EventKind, a: seq<Event>)
    requires forall e :: e in a ==> e.kind != kind
    ensures Amounts(kind, a) == 0
    decreases |a|
  {
    if a != [] {
      assert a[0] in a;
      assert forall e :: e in a[1..] ==> e in a;
      AmountsNone(kind, a[1..]);
    }
  }

  function RiseOf(p: Option<int>, c: Option<int>): int {
    if Rose(p, c) then c.value - p.value else 0
  }

  function Known(c: Counter, m: DetectorMemory): Option<int> {
    match c case Assists => m.localAssists case Mvps => m.localMvps
  }

  lemma ReportedRise(c: Counter, kind: EventKind, p: Option<int>, n: Option<int>, s: GameState)
    ensures Amounts(KindOf(c), Rise(kind, p, n, s)) == if kind == KindOf(c) then RiseOf(p, n) else 0
  {
  }

  lemma ReportedRestoration(c: Counter, m: DetectorMemory, s: GameState)
    ensures Amounts(KindOf(c), Restoration(m, s)) == if RestoredNow(m, s) then RiseOf(Known(c, m), Reading(c, s)) else 0
  {
    if RestoredNow(m, s) {
      hide Rise, When;
      var a, b := [Make(LocalPlayerRestored, s)], When(IsZero(m.localHp) && Positive(s.health), PlayerRespawned, s);
      var x, y := Rise(MvpGained, m.localMvps, s.mvps, s), Rise(PlayerAssist, m.localAssists, s.assists, s);
      AmountsNone(KindOf(c), a);
      AmountsNone(KindOf(c), b);
      ReportedRise(c, MvpGained, m.localMvps, s.mvps, s);
      ReportedRise(c, PlayerAssist, m.localAssists, s.assists, s);
      AmountsConcat(KindOf(c), a, b);
      AmountsConcat(KindOf(c), a + b, x);
      AmountsConcat(KindOf(c), a + b + x, y);
    }
  }

  lemma ReportedPairwise(c: Counter, p: GameState, s: GameState)
    ensures Amounts(KindOf(c), Pairwise(p, s)) == RiseOf(Reading(c, p), Reading(c, s))
  {
    if p.localPlayerValid && s.localPlayerValid {
      hide Rise, Onset, Health, Kills, Amounts;
      var a, b := Health(p, s), Kills(p, s);
      var d := Rise(PlayerHeadshotKill, p.roundHeadshotKills, s.roundHeadshotKills, s);
      var x, y := Rise(PlayerAssist, p.assists, s.assists, s), Rise(MvpGained, p.mvps, s.mvps, s);
      var f, g, h := Onset(PlayerFlashed, p.flashed, s.flashed, s), Onset(PlayerSmoked, p.smoked, s.smoked, s),
                     Onset(PlayerBurning, p.burning, s.burning, s);
      AmountsNone(KindOf(c), a);
      AmountsNone(KindOf(c), b);
      AmountsNone(KindOf(c), d);
      AmountsNone(KindOf(c), f);
      AmountsNone(KindOf(c), g);
      AmountsNone(KindOf(c), h);
      ReportedRise(c, PlayerAssist, p.assists, s.assists, s);
      ReportedRise(c, MvpGained, p.mvps, s.mvps, s);
      AmountsConcat(KindOf(c), a, b);
      AmountsConcat(KindOf(c), a + b, d);
      AmountsConcat(KindOf(c), a + b + d, x);
      AmountsConcat(KindOf(c), a + b + d + x, f);
      AmountsConcat(KindOf(c), a + b + d + x + f, g);
      AmountsConcat(KindOf(c), a + b + d + x + f + g, h);
      AmountsConcat(KindOf(c), a + b + d + x + f + g + h, y);
    } else {
      assert Pairwise(p, s) == [];
    }
  }

  lemma ReportedAdvance(c: Counter, m: DetectorMemory, p: GameState, s: GameState)
    ensures Amounts(KindOf(c), Advance(m, p, s, false).1) ==
      (if RestoredNow(m, s) then RiseOf(Known(c, m), Reading(c, s)) else 0) + RiseOf(Reading(c, p), Reading(c, s))
  {
    hide Opening, Restoration, Pairwise, BombChanges, RoundClose, PhaseChanges, Amounts, RiseOf, Reading, RestoredNow, Known;
    var a, b := Opening(m, false, s), Restoration(m, s);
    var d, f, g, h := Pairwise(p, s), BombChanges(p, s), RoundClose(m, p, s), PhaseChanges(m, p, s);
    AmountsNone(KindOf(c), a);
    AmountsNone(KindOf(c), f);
    AmountsNone(KindOf(c), g);
    AmountsNone(KindOf(c), h);
    ReportedRestoration(c, m, s);
    ReportedPairwise(c, p, s);
    AmountsConcat(KindOf(c), a, b);
    AmountsConcat(KindOf(c), a + b, Changes(m, p, s));
    AmountsConcat(KindOf(c), d, f);
    AmountsConcat(KindOf(c), d + f, g);
    AmountsConcat(KindOf(c), d + f + g, h);
  }

  /** The memory of a match is exactly a summary of the snapshots seen since it was entered. */
  predicate Summarizes(m: DetectorMemory, h: seq<GameState>) {
    && h != [] && m.previous == Some(h[|h| - 1])
    && m.localAssists == LastReading(Assists, h)
    && m.localMvps == LastReading(Mvps, h)
    && m.everAcquired == LocalSeen(h)
    && m.lost == (LocalSeen(h) && OtherSeenSince(h))
  }

  predicate InMatch(ss: seq<GameState>) {
    forall i :: 0 <= i < |ss| ==> ss[i].payloadValid && ss[i].mapName.Some?
  }

  lemma SeenSnoc(h: seq<GameState>, s: GameState)
    ensures LocalSeen(h + [s]) == (LocalSeen(h) || s.localPlayerValid)
    ensures OtherSeenSince(h + [s]) == (!s.localPlayerValid && (OtherSeenSince(h) || OtherObserved(s)))
  {
    var k := h + [s];
    if LocalSeen(h) {
      var i :| 0 <= i < |h| && h[i].localPlayerValid;
      assert k[i].localPlayerValid;
    }
    if s.localPlayerValid {
      assert k[|h|].localPlayerValid;
    }
    if OtherSeenSince(h) && !s.localPlayerValid {
      var i :| 0 <= i < |h| && OtherObserved(h[i]) && forall j :: i <= j < |h| ==> !h[j].localPlayerValid;
      assert OtherObserved(k[i]);
    }
    if OtherObserved(s) {
      assert OtherObserved(k[|h|]);
    }
    if OtherSeenSince(k) {
      var i :| 0 <= i < |k| && OtherObserved(k[i]) && forall j :: i <= j < |k| ==> !k[j].localPlayerValid;
      assert !k[|h|].localPlayerValid;
      if i < |h| {
        assert OtherObserved(h[i]);
        assert forall j :: i <= j < |h| ==> h[j] == k[j];
      }
    }
  }

  lemma ReadingSeen(c: Counter, h: seq<GameState>)
    ensures LastReading(c, h).Some? ==> LocalSeen(h)
  {
    if h != [] && Reading(c, h[|h| - 1]).None? {
      ReadingSeen(c, h[..|h| - 1]);
    }
  }

  lemma AdvanceMemory(m: DetectorMemory, p: GameState, s: GameState)
    requires s.mapName.Some? && (m.lost ==> m.everAcquired)
    ensures
      var m1 := Advance(m, p, s, false).0;
      && m1.previous == Some(s)
      && m1.localAssists == Newest(Reading(Assists, s), m.localAssists)
      && m1.localMvps == Newest(Reading(Mvps, s), m.localMvps)
      && m1.everAcquired == (m.everAcquired || s.localPlayerValid)
      && m1.lost == (m1.everAcquired && !s.localPlayerValid && (m.lost || OtherObserved(s)))
  {
    hide Opening, Restoration, Changes, LastEndedAfter, OutcomeAfter;
  }

  lemma ReadingSnoc(c: Counter, h: seq<GameState>, s: GameState)
    ensures LastReading(c, h + [s]) == Newest(Reading(c, s), LastReading(c, h))
  {
    assert (h + [s])[..|h|] == h;
    hide Reading;
  }

  lemma SummaryStep(m: DetectorMemory, h: seq<GameState>, s: GameState)
    requires Summarizes(m, h) && s.mapName.Some? && s.payloadValid
    requires h[|h| - 1].mapName.Some?
    ensures Summarizes(Detect(m, s).0, h + [s])
  {
    hide Detect, Advance, LocalSeen, OtherSeenSince, LastReading, Reading, OtherObserved;
    WithinMatch(m, h[|h| - 1], s);
    AdvanceMemory(m, h[|h| - 1], s);
    ReadingSnoc(Assists, h, s);
    ReadingSnoc(Mvps, h, s);
    SeenSnoc(h, s);
  }

  lemma SingleHistory(s: GameState)
    ensures LocalSeen([s]) == s.localPlayerValid
    ensures !(LocalSeen([s]) && OtherSeenSince([s]))
    ensures LastReading(Assists, [s]) == Reading(Assists, s) && LastReading(Mvps, [s]) == Reading(Mvps, s)
  {
    var h := [s];
    assert h[0] == s && h[..0] == [];
  }

  lemma SummaryEntry(m: DetectorMemory, s: GameState)
    requires Valid(m) && s.payloadValid && Enters(m, s)
    ensures Summarizes(Detect(m, s).0, [s])
  {
    hide Detect, Valid, LastReading, LocalSeen, OtherSeenSince, Enters, Reading;
    EntryMemory(m, s);
    SingleHistory(s);
  }

  lemma EntryMemory(m: DetectorMemory, s: GameState)
    requires Valid(m) && s.payloadValid && Enters(m, s)
    ensures
      var m1 := Detect(m, s).0;
      && m1.previous == Some(s) && m1.localAssists == Reading(Assists, s) && m1.localMvps == Reading(Mvps, s)
      && m1.everAcquired == s.localPlayerValid && !m1.lost
  {
  }

  /** Conservation: over any match, what the detector reports plus what it cannot
      notice across blind gaps is exactly the sum of the positive increments. */
  lemma {:induction false} CountersConserved(c: Counter, m: DetectorMemory, entry: GameState, ss: seq<GameState>)
    requires Valid(m) && Enters(m, entry) && InMatch([entry] + ss)
    ensures
      var m1 := Detect(m, entry).0;
      && Amounts(KindOf(c), Trace(m1, ss)) + GainedBlind(c, [entry] + ss) == Gained(c, [entry] + ss)
      && Summarizes(After(m1, ss), [entry] + ss)
  {
    hide Detect, Summarizes, Increment, GapVisible;
    assert ([entry] + ss)[0] == entry;
    var m1 := Detect(m, entry).0;
    if ss == [] {
      SummaryEntry(m, entry);
      GainedSingle(c, entry);
      assert [entry] + ss == [entry];
    } else {
      var init, s := ss[..|ss| - 1], ss[|ss| - 1];
      var h, k := [entry] + init, [entry] + ss;
      assert k[..|k| - 1] == h && k[|k| - 1] == s && k == h + [s];
      assert forall i :: 0 <= i < |h| ==> h[i] == k[i];
      CountersConserved(c, m, entry, init);
      var m2 := After(m1, init);
      CounterStep(c, m2, h, s);
      AmountsConcat(KindOf(c), Trace(m1, init), Detect(m2, s).1);
    }
  }

  lemma GainedSingle(c: Counter, s: GameState)
    ensures Gained(c, [s]) == GainedBlind(c, [s]) == 0
  {
  }

  lemma CounterStep(c: Counter, m: DetectorMemory, h: seq<GameState>, s: GameState)
    requires Summarizes(m, h) && InMatch(h) && s.payloadValid && s.mapName.Some?
    ensures Summarizes(Detect(m, s).0, h + [s])
    ensures Amounts(KindOf(c), Detect(m, s).1) == if GapVisible(c, h) then Increment(c, h, s) else 0
  {
    hide Advance, Detect, Amounts;
    var p := h[|h| - 1];
    assert p.mapName.Some?;
    SummaryStep(m, h, s);
    ReportedAdvance(c, m, p, s);
    WithinMatch(m, p, s);
    hide InMatch;
    VisibleIncrement(c, m, h, s);
  }

  lemma WithinMatch(m: DetectorMemory, p: GameState, s: GameState)
    requires m.previous == Some(p) && p.mapName.Some? && s.mapName.Some? && s.payloadValid
    ensures Detect(m, s) == Advance(m, p, s, false)
  {
    hide Advance;
  }

  /** The two reporting paths together see an increment exactly across a visible gap. */
  lemma VisibleIncrement(c: Counter, m: DetectorMemory, h: seq<GameState>, s: GameState)
    requires Summarizes(m, h)
    ensures
      (if RestoredNow(m, s) then RiseOf(Known(c, m), Reading(c, s)) else 0) + RiseOf(Reading(c, h[|h| - 1]), Reading(c, s))
      == if GapVisible(c, h) then Increment(c, h, s) else 0
  {
    hide LocalSeen;
    ReadingSeen(c, h);
    SeenSince(h);
    hide OtherSeenSince;
  }

  lemma SeenSince(h: seq<GameState>)
    ensures OtherSeenSince(h) ==> h != [] && !h[|h| - 1].localPlayerValid
  {
  }

  /** The documented case: local snapshots always carry the counter and every gap shows another player. */
  predicate GapsWitnessed(c: Counter, h: seq<GameState>) {
    && (forall i :: 0 <= i < |h| && h[i].localPlayerValid ==> Reading(c, h[i]).Some?)
    && (forall i :: 0 < i < |h| && h[i].localPlayerValid && !h[i - 1].localPlayerValid ==>
          OtherSeenSince(h[..i]) || !LocalSeen(h[..i]))
  }

  lemma {:induction false} WitnessedGapsLoseNothing(c: Counter, h: seq<GameState>)
    requires GapsWitnessed(c, h)
    ensures GainedBlind(c, h) == 0
  {
    if h != [] {
      var g, s := h[..|h| - 1], h[|h| - 1];
      forall i | 0 <= i < |g| ensures g[..i] == h[..i] && g[i] == h[i] {
      }
      WitnessedGapsLoseNothing(c, g);
      ReadingSeen(c, g);
      if s.localPlayerValid && g != [] && !g[|g| - 1].localPlayerValid {
        assert h[..|h| - 1] == g;
      }
    }
  }

  predicate NonDecreasing(c: Counter, h: seq<GameState>) {
    forall i :: 0 <= i < |h| && Reading(c, h[i]).Some? && LastReading(c, h[..i]).Some? ==>
      LastReading(c, h[..i]).value <= Reading(c, h[i]).value
  }

  function FirstReading(c: Counter, h: seq<GameState>): Option<int> {
    if h == [] then None
    else if FirstReading(c, h[..|h| - 1]).Some? then FirstReading(c, h[..|h| - 1])
    else Reading(c, h[|h| - 1])
  }

  /** For counters that never go back the gains telescope to last minus first. */
  lemma {:induction false} GainsTelescope(c: Counter, h: seq<GameState>)
    requires NonDecreasing(c, h)
    ensures FirstReading(c, h).Some? == LastReading(c, h).Some?
    ensures Gained(c, h) ==
      if LastReading(c, h).Some? then LastReading(c, h).value - FirstReading(c, h).value else 0
  {
    if h != [] {
      var g := h[..|h| - 1];
      forall i | 0 <= i < |g| ensures g[..i] == h[..i] && g[i] == h[i] {
      }
      GainsTelescope(c, g);
    }
  }
}
