/** What adjacent snapshots report adds up, and what switches on switches off. */
module DetectorLedger {
  import opened Telemetry
  import opened Traces
  import opened EventDetection
  import opened DetectorTheorems

  // ----- Amounts reported between adjacent local snapshots -----

  /** Quantities that only adjacent snapshots of the local player report. */
  datatype Ledger = KillCount | HeadshotCount | DamageTaken

  function LedgerKind(l: Ledger): EventKind {
    match l case KillCount => PlayerKill case HeadshotCount => PlayerHeadshotKill case DamageTaken => PlayerDamaged
  }

  /** What changed between two adjacent snapshots: kills gained, or health lost. */
  function Change(l: Ledger, p: GameState, s: GameState): int {
    if !(p.localPlayerValid && s.localPlayerValid) then 0
    else match l
      case KillCount => RiseOf(p.roundKills, s.roundKills)
      case HeadshotCount => RiseOf(p.roundHeadshotKills, s.roundHeadshotKills)
      case DamageTaken => RiseOf(s.health, p.health)
  }

  function TotalChange(l: Ledger, p: GameState, ss: seq<GameState>): int {
    if ss == [] then 0
    else TotalChange(l, p, ss[..|ss| - 1]) + Change(l, Last(p, ss[..|ss| - 1]), ss[|ss| - 1])
  }

  lemma AmountsOne(kind: EventKind, e: Event)
    ensures Amounts(kind, [e]) == if e.kind == kind && e.amount.Some? then e.amount.value else 0
  {
  }

  lemma AmountsRise(kind: EventKind, p: Option<int>, c: Option<int>, s: GameState)
    ensures Amounts(kind, Rise(kind, p, c, s)) == RiseOf(p, c)
  {
  }

  lemma HealthAmounts(p: GameState, s: GameState)
    ensures Amounts(PlayerDamaged, Health(p, s)) == RiseOf(s.health, p.health)
  {
    if p.health.Some? && s.health.Some? {
      var died, revived := When(p.health.value > 0 && s.health.value == 0, PlayerDied, s),
                           When(p.health.value == 0 && s.health.value > 0, PlayerRespawned, s);
      var damage := if s.health.value < p.health.value
        then [Make(PlayerDamaged, s).(amount := Some(p.health.value - s.health.value), value := s.health)] else [];
      assert Health(p, s) == damage + died + revived;
      AmountsConcat(PlayerDamaged, damage, died);
      AmountsConcat(PlayerDamaged, damage + died, revived);
      AmountsNone(PlayerDamaged, died);
      AmountsNone(PlayerDamaged, revived);
      if damage != [] {
        AmountsOne(PlayerDamaged, damage[0]);
      }
      hide When, Health, Amounts;
    }
  }

  lemma KillAmounts(p: GameState, s: GameState)
    ensures Amounts(PlayerKill, Kills(p, s)) == RiseOf(p.roundKills, s.roundKills)
  {
    var kill := Rise(PlayerKill, p.roundKills, s.roundKills, s);
    var candidate := Kills(p, s)[|kill|..];
    assert Kills(p, s) == kill + candidate;
    AmountsConcat(PlayerKill, kill, candidate);
    AmountsNone(PlayerKill, candidate);
    AmountsRise(PlayerKill, p.roundKills, s.roundKills, s);
  }

  lemma RestAmounts(p: GameState, s: GameState)
    ensures Amounts(PlayerHeadshotKill, PairwiseRest(p, s)) == RiseOf(p.roundHeadshotKills, s.roundHeadshotKills)
  {
    hide Rise, Onset;
    var shots := Rise(PlayerHeadshotKill, p.roundHeadshotKills, s.roundHeadshotKills, s);
    var a, e := Rise(PlayerAssist, p.assists, s.assists, s), Rise(MvpGained, p.mvps, s.mvps, s);
    var b, c, d := Onset(PlayerFlashed, p.flashed, s.flashed, s), Onset(PlayerSmoked, p.smoked, s.smoked, s),
                   Onset(PlayerBurning, p.burning, s.burning, s);
    var rest := a + b + c + d + e;
    assert PairwiseRest(p, s) == shots + rest;
    AmountsConcat(PlayerHeadshotKill, shots, rest);
    AmountsNone(PlayerHeadshotKill, rest);
    AmountsRise(PlayerHeadshotKill, p.roundHeadshotKills, s.roundHeadshotKills, s);
    hide PairwiseRest, Amounts;
  }

  lemma RestKinds(p: GameState, s: GameState)
    ensures forall e :: e in PairwiseRest(p, s) ==> e.kind !in {PlayerDamaged, PlayerKill}
  {
  }

  lemma PairwiseAmounts(l: Ledger, p: GameState, s: GameState)
    ensures Amounts(LedgerKind(l), Pairwise(p, s)) == Change(l, p, s)
  {
    if p.localPlayerValid && s.localPlayerValid {
      PairwiseParts(p, s);
      RestKinds(p, s);
      var kind := LedgerKind(l);
      var h, k, r := Health(p, s), Kills(p, s), PairwiseRest(p, s);
      hide Pairwise, PairwiseRest, Health, Kills, Amounts;
      AmountsConcat(kind, h, k);
      AmountsConcat(kind, h + k, r);
      match l
      case KillCount =>
        KillAmounts(p, s);
        AmountsNone(kind, h);
        AmountsNone(kind, r);
      case HeadshotCount =>
        RestAmounts(p, s);
        AmountsNone(kind, h);
        AmountsNone(kind, k);
      case DamageTaken =>
        HealthAmounts(p, s);
        AmountsNone(kind, k);
        AmountsNone(kind, r);
    }
  }

  lemma AdvanceAmounts(l: Ledger, m: DetectorMemory, p: GameState, s: GameState)
    ensures Amounts(LedgerKind(l), Advance(m, p, s, false).1) == Change(l, p, s)
  {
    hide Opening, Restoration, Pairwise, BombChanges, RoundClose, PhaseChanges, Amounts, Change;
    var kind := LedgerKind(l);
    var a, b := Opening(m, false, s), Restoration(m, s);
    var d, f, g, h := Pairwise(p, s), BombChanges(p, s), RoundClose(m, p, s), PhaseChanges(m, p, s);
    AmountsNone(kind, a);
    AmountsNone(kind, b);
    AmountsNone(kind, f);
    AmountsNone(kind, g);
    AmountsNone(kind, h);
    PairwiseAmounts(l, p, s);
    AmountsConcat(kind, a, b);
    AmountsConcat(kind, a + b, Changes(m, p, s));
    AmountsConcat(kind, d, f);
    AmountsConcat(kind, d + f, g);
    AmountsConcat(kind, d + f + g, h);
  }

  /** A stretch of one match: `p` is the last snapshot seen, `ss` follow it. */
  predicate Stretch(m: DetectorMemory, p: GameState, ss: seq<GameState>) {
    m.previous == Some(p) && InMatch([p] + ss)
  }

  lemma StretchStep(m: DetectorMemory, p: GameState, ss: seq<GameState>)
    requires Stretch(m, p, ss) && ss != []
    ensures
      var init, s := ss[..|ss| - 1], ss[|ss| - 1];
      && Stretch(m, p, init)
      && s.payloadValid && s.mapName.Some? && Last(p, init).mapName.Some?
  {
    var init, h := ss[..|ss| - 1], [p] + ss;
    forall i | 0 <= i < |[p] + init| ensures ([p] + init)[i] == h[i] {
    }
    assert h[|ss|] == ss[|ss| - 1];
    assert init != [] ==> h[|init|] == init[|init| - 1];
    assert h[0] == p;
  }

  lemma StretchAdvances(m: DetectorMemory, p: GameState, s: GameState)
    requires m.previous == Some(p) && p.mapName.Some? && s.mapName.Some? && s.payloadValid
    ensures Detect(m, s) == Advance(m, p, s, false) && Detect(m, s).0.previous == Some(s)
  {
  }

  lemma {:induction false} StretchMemory(m: DetectorMemory, p: GameState, ss: seq<GameState>)
    requires Stretch(m, p, ss)
    ensures After(m, ss).previous == Some(Last(p, ss)) && Last(p, ss).mapName.Some?
  {
    hide Detect;
    assert ([p] + ss)[0] == p;
    if ss != [] {
      StretchStep(m, p, ss);
      StretchMemory(m, p, ss[..|ss| - 1]);
      StretchAdvances(After(m, ss[..|ss| - 1]), Last(p, ss[..|ss| - 1]), ss[|ss| - 1]);
    }
  }

  /** Within a match the kills, headshots and damage reported are exactly those between
      adjacent snapshots of the local player: none lost, none counted twice. */
  lemma {:induction false} LedgersBalance(l: Ledger, m: DetectorMemory, p: GameState, ss: seq<GameState>)
    requires Stretch(m, p, ss)
    ensures Amounts(LedgerKind(l), Trace(m, ss)) == TotalChange(l, p, ss)
  {
    hide Detect, Change, Stretch, Advance;
    if ss != [] {
      var init, s := ss[..|ss| - 1], ss[|ss| - 1];
      StretchStep(m, p, ss);
      LedgersBalance(l, m, p, init);
      StretchMemory(m, p, init);
      StretchAdvances(After(m, init), Last(p, init), s);
      AdvanceAmounts(l, After(m, init), Last(p, init), s);
      AmountsConcat(LedgerKind(l), Trace(m, init), Detect(After(m, init), s).1);
    }
  }

  /** What a snapshot of the local player says: kills and headshots as they are, damage as lost health. */
  function Standing(l: Ledger, s: GameState): Option<int> {
    if !s.localPlayerValid then None
    else match l
      case KillCount => s.roundKills
      case HeadshotCount => s.roundHeadshotKills
      case DamageTaken => if s.health.Some? then Some(-s.health.value) else None
  }

  /** The sum of the falls, which are not reported: a new round's kills, health given back. */
  function Falls(l: Ledger, p: GameState, ss: seq<GameState>): int {
    if ss == [] then 0
    else Falls(l, p, ss[..|ss| - 1]) + RiseOf(Standing(l, ss[|ss| - 1]), Standing(l, Last(p, ss[..|ss| - 1])))
  }

  /** While the local player is watched, what is reported is the net change plus the falls;
      so for kills that never go back, and health that is never given back, last minus first. */
  lemma {:induction false} LedgersTelescope(l: Ledger, m: DetectorMemory, p: GameState, ss: seq<GameState>)
    requires Stretch(m, p, ss)
    requires Standing(l, p).Some? && forall k :: 0 <= k < |ss| ==> Standing(l, ss[k]).Some?
    ensures Standing(l, Last(p, ss)).Some?
    ensures Amounts(LedgerKind(l), Trace(m, ss)) == Standing(l, Last(p, ss)).value - Standing(l, p).value + Falls(l, p, ss)
  {
    hide Stretch, Detect, Amounts, Trace;
    LedgersBalance(l, m, p, ss);
    if ss != [] {
      var init := ss[..|ss| - 1];
      StretchStep(m, p, ss);
      LedgersBalance(l, m, p, init);
      LedgersTelescope(l, m, p, init);
    }
  }

  // ----- Switches -----

  datatype Switch = Off | On | Stuck

  /** BOMB_PLANTED and BOMB_STATE_CLEARED alternate. */
  function BombDelta(q: Switch, e: Event): Switch {
    if e.kind == BombPlanted then (if q == Off then On else Stuck)
    else if e.kind == BombStateCleared then (if q == On then Off else Stuck)
    else q
  }

  /** HALFTIME_STARTED and HALFTIME_ENDED alternate. */
  function HalftimeDelta(q: Switch, e: Event): Switch {
    if e.kind == HalftimeStarted then (if q == Off then On else Stuck)
    else if e.kind == HalftimeEnded then (if q == On then Off else Stuck)
    else q
  }

  function Bomb(s: GameState): Switch { if s.bombState == Some("planted") then On else Off }

  function Halftime(s: GameState): Switch { if s.mapPhase == Some("intermission") then On else Off }

  lemma FoldWhen<Q>(delta: (Q, Event) -> Q, q: Q, c: bool, kind: EventKind, s: GameState)
    ensures Fold(delta, q, When(c, kind, s)) == if c then delta(q, Make(kind, s)) else q
  {
  }

  lemma BombSection(p: GameState, s: GameState)
    ensures Fold(BombDelta, Bomb(p), BombChanges(p, s)) == Bomb(s)
  {
    hide When, Fold;
    var planted, cleared := ChangedTo(p.bombState, s.bombState, "planted"), p.bombState == Some("planted") && s.bombState != Some("planted");
    var defused, exploded := ChangedTo(p.bombState, s.bombState, "defused"), ChangedTo(p.bombState, s.bombState, "exploded");
    var a, b, c, d := When(planted, BombPlanted, s), When(defused, BombDefused, s),
                      When(exploded, BombExploded, s), When(cleared, BombStateCleared, s);
    FoldConcat(BombDelta, Bomb(p), a, b);
    FoldConcat(BombDelta, Bomb(p), a + b, c);
    FoldConcat(BombDelta, Bomb(p), a + b + c, d);
    var q := if planted then On else Bomb(p);
    FoldWhen(BombDelta, Bomb(p), planted, BombPlanted, s);
    FoldWhen(BombDelta, q, defused, BombDefused, s);
    FoldWhen(BombDelta, q, exploded, BombExploded, s);
    FoldWhen(BombDelta, q, cleared, BombStateCleared, s);
  }

  lemma HalftimeSection(m: DetectorMemory, p: GameState, s: GameState)
    ensures Fold(HalftimeDelta, Halftime(p), PhaseChanges(m, p, s)) == Halftime(s)
  {
    hide When, Fold, TeamChange, RoundPhases;
    HalftimeRounds(p, s);
    var over := When(GameOverStarted(p, s), GameOver, s);
    FoldConcat(HalftimeDelta, Halftime(p), RoundPhases(p, s), TeamChange(m, s));
    FoldConcat(HalftimeDelta, Halftime(p), RoundPhases(p, s) + TeamChange(m, s), over);
    FoldSkip(HalftimeDelta, Halftime(s), TeamChange(m, s));
    FoldSkip(HalftimeDelta, Halftime(s), over);
  }

  lemma HalftimeRounds(p: GameState, s: GameState)
    ensures Fold(HalftimeDelta, Halftime(p), RoundPhases(p, s)) == Halftime(s)
  {
    hide When, Fold;
    var freeze := ChangedTo(p.roundPhase, s.roundPhase, "freezetime") && s.mapPhase != Some("gameover");
    var started := ChangedTo(p.mapPhase, s.mapPhase, "intermission");
    var ended := p.mapPhase == Some("intermission") && s.mapPhase != Some("intermission");
    var a := When(freeze, FreezeStarted, s) + When(RoundStarts(p, s), FreezeEnded, s) + When(RoundStarts(p, s), RoundStarted, s);
    var b, c := When(started, HalftimeStarted, s), When(ended, HalftimeEnded, s);
    assert RoundPhases(p, s) == a + b + c;
    FoldConcat(HalftimeDelta, Halftime(p), a, b);
    FoldConcat(HalftimeDelta, Halftime(p), a + b, c);
    FoldSkip(HalftimeDelta, Halftime(p), a);
    FoldWhen(HalftimeDelta, Halftime(p), started, HalftimeStarted, s);
    FoldWhen(HalftimeDelta, if started then On else Halftime(p), ended, HalftimeEnded, s);
    hide RoundPhases;
  }

  lemma SwitchStep(m: DetectorMemory, p: GameState, s: GameState)
    ensures Fold(BombDelta, Bomb(p), Advance(m, p, s, false).1) == Bomb(s)
    ensures Fold(HalftimeDelta, Halftime(p), Advance(m, p, s, false).1) == Halftime(s)
  {
    OpeningSansEntry(m, s);
    hide Advance, Opening, Restoration, Pairwise, BombChanges, RoundClose, PhaseChanges, Fold;
    FoldAdvance(BombDelta, Bomb(p), m, p, s, false);
    FoldAdvance(HalftimeDelta, Halftime(p), m, p, s, false);
    FoldChanges(BombDelta, Bomb(p), m, p, s);
    FoldChanges(HalftimeDelta, Halftime(p), m, p, s);
    FoldSkip(BombDelta, Bomb(p), Opening(m, false, s));
    FoldSkip(BombDelta, Bomb(p), Restoration(m, s));
    FoldSkip(BombDelta, Bomb(p), Pairwise(p, s));
    BombSection(p, s);
    FoldSkip(BombDelta, Bomb(s), RoundClose(m, p, s));
    FoldSkip(BombDelta, Bomb(s), PhaseChanges(m, p, s));
    FoldSkip(HalftimeDelta, Halftime(p), Opening(m, false, s));
    FoldSkip(HalftimeDelta, Halftime(p), Restoration(m, s));
    FoldSkip(HalftimeDelta, Halftime(p), Pairwise(p, s));
    FoldSkip(HalftimeDelta, Halftime(p), BombChanges(p, s));
    FoldSkip(HalftimeDelta, Halftime(p), RoundClose(m, p, s));
    HalftimeSection(m, p, s);
  }

  /** Within a match plantings and clearings alternate, halftimes start and end in turn, and
      after every snapshot the trace says what the snapshot says. */
  lemma {:induction false} SwitchesAlternate(m: DetectorMemory, p: GameState, ss: seq<GameState>)
    requires Stretch(m, p, ss)
    ensures Fold(BombDelta, Bomb(p), Trace(m, ss)) == Bomb(Last(p, ss))
    ensures Fold(HalftimeDelta, Halftime(p), Trace(m, ss)) == Halftime(Last(p, ss))
  {
    hide Detect, Stretch, Bomb, Halftime, BombDelta, HalftimeDelta, Advance;
    if ss != [] {
      var init, s := ss[..|ss| - 1], ss[|ss| - 1];
      StretchStep(m, p, ss);
      SwitchesAlternate(m, p, init);
      StretchMemory(m, p, init);
      var m1, last := After(m, init), Last(p, init);
      StretchAdvances(m1, last, s);
      SwitchStep(m1, last, s);
      FoldConcat(BombDelta, Bomb(p), Trace(m, init), Detect(m1, s).1);
      FoldConcat(HalftimeDelta, Halftime(p), Trace(m, init), Detect(m1, s).1);
    }
  }

  // ----- Team changes -----

  datatype TeamChain = Team(name: string) | BrokenChain

  /** Each TEAM_CHANGED leaves the team known so far for another one. */
  function TeamDelta(q: TeamChain, e: Event): TeamChain {
    if e.kind != TeamChanged then q
    else if q.Team? && e.before == q.name && e.after != q.name then Team(e.after)
    else BrokenChain
  }

  lemma TeamChangeStep(m: DetectorMemory, s: GameState)
    requires m.localTeam.Some?
    ensures Remember(m, s).localTeam.Some?
    ensures Fold(TeamDelta, Team(m.localTeam.value), TeamChange(m, s)) == Team(Remember(m, s).localTeam.value)
  {
    if TeamChange(m, s) != [] {
      FoldOne(TeamDelta, Team(m.localTeam.value), TeamChange(m, s)[0]);
    }
  }

  lemma TeamSection(m: DetectorMemory, p: GameState, s: GameState)
    requires m.localTeam.Some?
    ensures Remember(m, s).localTeam.Some?
    ensures Fold(TeamDelta, Team(m.localTeam.value), PhaseChanges(m, p, s)) == Team(Remember(m, s).localTeam.value)
  {
    TeamChangeStep(m, s);
    hide RoundPhases, TeamChange, When, Fold, Remember;
    var q, q' := Team(m.localTeam.value), Team(Remember(m, s).localTeam.value);
    var a, b, c := RoundPhases(p, s), TeamChange(m, s), When(GameOverStarted(p, s), GameOver, s);
    FoldConcat(TeamDelta, q, a, b);
    FoldConcat(TeamDelta, q, a + b, c);
    FoldSkip(TeamDelta, q, a);
    FoldSkip(TeamDelta, q', c);
  }

  lemma AdvanceTeam(m: DetectorMemory, p: GameState, s: GameState)
    ensures Advance(m, p, s, false).0.localTeam == Remember(m, s).localTeam
  {
    hide Remember, Opening, Restoration, Changes, LastEndedAfter, OutcomeAfter;
  }

  lemma TeamStep(m: DetectorMemory, p: GameState, s: GameState)
    requires m.localTeam.Some?
    ensures
      var (next, events) := Advance(m, p, s, false);
      next.localTeam.Some? && Fold(TeamDelta, Team(m.localTeam.value), events) == Team(next.localTeam.value)
  {
    hide Advance, Opening, Restoration, Pairwise, BombChanges, RoundClose, PhaseChanges, Fold, Remember;
    OpeningSansEntry(m, s);
    TeamSection(m, p, s);
    AdvanceTeam(m, p, s);
    var q := Team(m.localTeam.value);
    FoldAdvance(TeamDelta, q, m, p, s, false);
    FoldChanges(TeamDelta, q, m, p, s);
    FoldSkip(TeamDelta, q, Opening(m, false, s));
    FoldSkip(TeamDelta, q, Restoration(m, s));
    FoldSkip(TeamDelta, q, Pairwise(p, s));
    FoldSkip(TeamDelta, q, BombChanges(p, s));
    FoldSkip(TeamDelta, q, RoundClose(m, p, s));
  }

  /** Within a match, once the local team is known, the team changes reported lead from it
      to the team known now, one link at a time. */
  lemma {:induction false} TeamsChain(m: DetectorMemory, p: GameState, ss: seq<GameState>)
    requires Stretch(m, p, ss) && m.localTeam.Some?
    ensures After(m, ss).localTeam.Some?
    ensures Fold(TeamDelta, Team(m.localTeam.value), Trace(m, ss)) == Team(After(m, ss).localTeam.value)
  {
    hide Detect, Stretch, TeamDelta, Advance;
    if ss != [] {
      var init, s := ss[..|ss| - 1], ss[|ss| - 1];
      StretchStep(m, p, ss);
      TeamsChain(m, p, init);
      StretchMemory(m, p, init);
      var m1, last := After(m, init), Last(p, init);
      StretchAdvances(m1, last, s);
      TeamStep(m1, last, s);
      FoldConcat(TeamDelta, Team(m.localTeam.value), Trace(m, init), Detect(m1, s).1);
    }
  }

  // ----- Ace candidates -----

  function Count(kind: EventKind, trace: seq<Event>): nat {
    if trace == [] then 0 else (if trace[0].kind == kind then 1 else 0) + Count(kind, trace[1..])
  }

  lemma {:induction false} CountConcat(kind: EventKind, a: seq<Event>, b: seq<Event>)
    ensures Count(kind, a + b) == Count(kind, a) + Count(kind, b)
    decreases |a|
  {
    if a == [] {
      assert a + b == b;
    } else {
      assert (a + b)[0] == a[0] && (a + b)[1..] == a[1..] + b;
      CountConcat(kind, a[1..], b);
    }
  }

  lemma {:induction false} CountNone(kind: EventKind, a: seq<Event>)
    requires forall e :: e in a ==> e.kind != kind
    ensures Count(kind, a) == 0
    decreases |a|
  {
    if a != [] {
      assert a[0] in a;
      assert forall e :: e in a[1..] ==> e in a;
      CountNone(kind, a[1..]);
    }
  }

  /** The local player's kills of the round, where the snapshot says. */
  function KillsNow(s: GameState): Option<int> { if s.localPlayerValid then s.roundKills else None }

  lemma CandidateCount(p: GameState, s: GameState)
    ensures Count(AceCandidate, Kills(p, s)) <= 1
    ensures Count(AceCandidate, Kills(p, s)) == 1 ==>
      var t := AceCandidateThreshold(s);
      t.Some? && p.roundKills.Some? && s.roundKills.Some? && p.roundKills.value < t.value <= s.roundKills.value
  {
    hide AceCandidateThreshold;
    var kill := Rise(PlayerKill, p.roundKills, s.roundKills, s);
    var candidate := Kills(p, s)[|kill|..];
    assert Kills(p, s) == kill + candidate && |candidate| <= 1;
    CountConcat(AceCandidate, kill, candidate);
    CountNone(AceCandidate, kill);
    assert candidate == [] || candidate[1..] == [];
  }

  lemma CandidateStep(m: DetectorMemory, p: GameState, s: GameState)
    ensures
      var n := Count(AceCandidate, Advance(m, p, s, false).1);
      n <= 1 && (n == 1 ==>
        var t := AceCandidateThreshold(s);
        t.Some? && KillsNow(p).Some? && KillsNow(s).Some? && KillsNow(p).value < t.value <= KillsNow(s).value)
  {
    hide Opening, Restoration, Pairwise, BombChanges, RoundClose, PhaseChanges, Count, Health, Kills, PairwiseRest, AceCandidateThreshold;
    var k := AceCandidate;
    var a, b := Opening(m, false, s), Restoration(m, s);
    var d, f, g, h := Pairwise(p, s), BombChanges(p, s), RoundClose(m, p, s), PhaseChanges(m, p, s);
    CountNone(k, a);
    CountNone(k, b);
    CountNone(k, f);
    CountNone(k, g);
    CountNone(k, h);
    CountConcat(k, a, b);
    CountConcat(k, a + b, Changes(m, p, s));
    CountConcat(k, d, f);
    CountConcat(k, d + f, g);
    CountConcat(k, d + f + g, h);
    PairwiseCandidates(p, s);
  }

  lemma PairwiseCandidates(p: GameState, s: GameState)
    ensures Count(AceCandidate, Pairwise(p, s)) ==
      if p.localPlayerValid && s.localPlayerValid then Count(AceCandidate, Kills(p, s)) else 0
    ensures Count(AceCandidate, Kills(p, s)) <= 1
    ensures Count(AceCandidate, Kills(p, s)) == 1 ==>
      var t := AceCandidateThreshold(s);
      t.Some? && p.roundKills.Some? && s.roundKills.Some? && p.roundKills.value < t.value <= s.roundKills.value
  {
    CandidateCount(p, s);
    if p.localPlayerValid && s.localPlayerValid {
      PairwiseParts(p, s);
      RestCandidates(p, s);
      hide Pairwise, Health, Kills, PairwiseRest, Count, AceCandidateThreshold;
      CountConcat(AceCandidate, Health(p, s), Kills(p, s));
      CountConcat(AceCandidate, Health(p, s) + Kills(p, s), PairwiseRest(p, s));
      CountNone(AceCandidate, Health(p, s));
      CountNone(AceCandidate, PairwiseRest(p, s));
    }
  }

  lemma RestCandidates(p: GameState, s: GameState)
    ensures forall e :: e in PairwiseRest(p, s) ==> e.kind != AceCandidate
  {
    hide Rise, Onset;
  }

  /** One round: the local player's threshold stays and kills never go back, whoever is watched in between. */
  predicate OneRound(t: int, h: seq<GameState>) {
    && (forall k :: 0 <= k < |h| && KillsNow(h[k]).Some? ==> AceCandidateThreshold(h[k]) == Some(t))
    && (forall i, j :: 0 <= i < j < |h| && KillsNow(h[i]).Some? && KillsNow(h[j]).Some? ==>
          KillsNow(h[i]).value <= KillsNow(h[j]).value)
  }

  lemma OneRoundPrefix(t: int, h: seq<GameState>, s: GameState)
    requires OneRound(t, h + [s])
    ensures OneRound(t, h)
  {
    hide AceCandidateThreshold, KillsNow;
    forall k | 0 <= k < |h| ensures h[k] == (h + [s])[k] {
    }
  }

  predicate Reached(t: int, h: seq<GameState>) {
    exists k :: 0 <= k < |h| && KillsNow(h[k]).Some? && KillsNow(h[k]).value >= t
  }

  /** Within a round at most one ace candidate is reported, and then the threshold was reached. */
  lemma {:induction false} AtMostOneCandidate(t: int, m: DetectorMemory, p: GameState, ss: seq<GameState>)
    requires Stretch(m, p, ss) && OneRound(t, [p] + ss)
    ensures Count(AceCandidate, Trace(m, ss)) <= 1
    ensures Count(AceCandidate, Trace(m, ss)) == 1 ==> Reached(t, [p] + ss)
  {
    hide Detect, Stretch, Advance, AceCandidateThreshold, KillsNow;
    if ss != [] {
      var init, s := ss[..|ss| - 1], ss[|ss| - 1];
      var h, k := [p] + init, [p] + ss;
      assert k == h + [s] && h[|h| - 1] == Last(p, init);
      OneRoundPrefix(t, h, s);
      StretchStep(m, p, ss);
      AtMostOneCandidate(t, m, p, init);
      StretchMemory(m, p, init);
      var m1, last := After(m, init), Last(p, init);
      StretchAdvances(m1, last, s);
      CandidateStep(m1, last, s);
      CountConcat(AceCandidate, Trace(m, init), Detect(m1, s).1);
      assert k[|h|] == s;
      if Reached(t, h) {
        var i :| 0 <= i < |h| && KillsNow(h[i]).Some? && KillsNow(h[i]).value >= t;
        assert k[i] == h[i] && k[|h| - 1] == last;
      }
    }
  }
}
