/** The factual event detector: consecutive normalized snapshots become events,
    with a memory that survives spectator gaps and is wiped at match boundaries. */
module EventDetection {
  import opened Telemetry

  datatype DetectorMemory = MemoryOf(
    previous: Option<GameState>,
    lastEndedRound: Option<int>,
    lastOutcomeRound: Option<int>,
    localHp: Option<int>,
    localMvps: Option<int>,
    localAssists: Option<int>,
    localTeam: Option<string>,
    everAcquired: bool,
    lost: bool)

  /** What `clear_match_memory` leaves behind. */
  function Wiped(previous: Option<GameState>): DetectorMemory {
    MemoryOf(previous, None, None, None, None, None, None, false, false)
  }

  const BLANK := Wiped(None)

  // ----- The specification of one call, section by section -----

  function Make(kind: EventKind, s: GameState): Event {
    Event(kind, Deterministic, {Gsi}, s.sequence, s.relativeUs, None, None, "", "")
  }

  function When(c: bool, kind: EventKind, s: GameState): (r: seq<Event>)
    ensures forall e :: e in r ==> e.kind == kind
  {
    if c then [Make(kind, s)] else []
  }

  predicate Rose(p: Option<int>, c: Option<int>) {
    p.Some? && c.Some? && c.value > p.value
  }

  function Rise(kind: EventKind, p: Option<int>, c: Option<int>, s: GameState): (r: seq<Event>)
    ensures forall e :: e in r ==> e.kind == kind
  {
    if Rose(p, c) then [Make(kind, s).(amount := Some(c.value - p.value), value := c)] else []
  }

  predicate Positive(o: Option<int>) { o.Some? && o.value > 0 }

  predicate IsZero(o: Option<int>) { o == Some(0) }

  function Onset(kind: EventKind, p: Option<int>, c: Option<int>, s: GameState): (r: seq<Event>)
    ensures forall e :: e in r ==> e.kind == kind
  {
    if Positive(c) && !Positive(p) then [Make(kind, s).(value := c)] else []
  }

  predicate ChangedTo(p: Option<string>, c: Option<string>, expected: string) {
    c == Some(expected) && p != Some(expected)
  }

  /** Another player's point of view: both identities are known and differ. */
  predicate OtherObserved(s: GameState) {
    s.providerId.Some? && s.observedId.Some? && !s.localPlayerValid
  }

  function AceCandidateThreshold(s: GameState): Option<int> {
    if s.mapMode == Some("competitive") then Some(5)
    else if s.mapMode == Some("retakes") && s.playerTeam == Some("CT") then Some(3)
    else if s.mapMode == Some("retakes") && s.playerTeam == Some("T") then Some(4)
    else None
  }

  /** MATCH_ENTERED, LOCAL_PLAYER_ACQUIRED, LOCAL_PLAYER_LOST. */
  function Opening(m: DetectorMemory, entered: bool, s: GameState): (r: seq<Event>)
    ensures forall e :: e in r ==> e.kind in {MatchEntered, LocalPlayerAcquired, LocalPlayerLost}
  {
    When(entered, MatchEntered, s)
    + When(AcquiredNow(m, s), LocalPlayerAcquired, s)
    + When(LostNow(m, s), LocalPlayerLost, s)
  }

  predicate AcquiredNow(m: DetectorMemory, s: GameState) {
    s.mapName.Some? && s.localPlayerValid && !m.everAcquired
  }

  predicate LostNow(m: DetectorMemory, s: GameState) {
    (m.everAcquired || AcquiredNow(m, s)) && OtherObserved(s) && !m.lost
  }

  predicate RestoredNow(m: DetectorMemory, s: GameState) {
    (m.everAcquired || AcquiredNow(m, s)) && m.lost && s.localPlayerValid
  }

  function Restoration(m: DetectorMemory, s: GameState): (r: seq<Event>)
    ensures forall e :: e in r ==>
      e.kind in {LocalPlayerRestored, PlayerRespawned, MvpGained, PlayerAssist}
  {
    if !RestoredNow(m, s) then []
    else
      [Make(LocalPlayerRestored, s)]
      + When(IsZero(m.localHp) && Positive(s.health), PlayerRespawned, s)
      + Rise(MvpGained, m.localMvps, s.mvps, s)
      + Rise(PlayerAssist, m.localAssists, s.assists, s)
  }

  function Health(p: GameState, s: GameState): (r: seq<Event>)
    ensures forall e :: e in r ==> e.kind in {PlayerDamaged, PlayerDied, PlayerRespawned}
  {
    if p.health.None? || s.health.None? then [] else
    (if s.health.value < p.health.value
     then [Make(PlayerDamaged, s).(amount := Some(p.health.value - s.health.value), value := s.health)]
     else [])
    + When(p.health.value > 0 && s.health.value == 0, PlayerDied, s)
    + When(p.health.value == 0 && s.health.value > 0, PlayerRespawned, s)
  }

  function Kills(p: GameState, s: GameState): (r: seq<Event>)
    ensures forall e :: e in r ==> e.kind in {PlayerKill, AceCandidate}
  {
    var threshold := AceCandidateThreshold(s);
    Rise(PlayerKill, p.roundKills, s.roundKills, s)
    + (if Rose(p.roundKills, s.roundKills)
       && (p.roundPhase == Some("live") || s.roundPhase == Some("live"))
       && threshold.Some? && p.roundKills.value < threshold.value <= s.roundKills.value
       then [Make(AceCandidate, s).(evidence := ModeAssumption, sources := {Gsi, ModeRules}, value := s.roundKills)]
       else [])
  }

  /** Changes between two adjacent snapshots that both describe the local player. */
  function Pairwise(p: GameState, s: GameState): (r: seq<Event>)
    ensures forall e :: e in r ==>
      e.kind in {PlayerDamaged, PlayerDied, PlayerRespawned, PlayerKill, AceCandidate, PlayerHeadshotKill,
                 PlayerAssist, PlayerFlashed, PlayerSmoked, PlayerBurning, MvpGained}
  {
    if !(p.localPlayerValid && s.localPlayerValid) then []
    else
      Health(p, s)
      + Kills(p, s)
      + Rise(PlayerHeadshotKill, p.roundHeadshotKills, s.roundHeadshotKills, s)
      + Rise(PlayerAssist, p.assists, s.assists, s)
      + Onset(PlayerFlashed, p.flashed, s.flashed, s)
      + Onset(PlayerSmoked, p.smoked, s.smoked, s)
      + Onset(PlayerBurning, p.burning, s.burning, s)
      + Rise(MvpGained, p.mvps, s.mvps, s)
  }

  function BombChanges(p: GameState, s: GameState): (r: seq<Event>)
    ensures forall e :: e in r ==> e.kind in {BombPlanted, BombDefused, BombExploded, BombStateCleared}
  {
    When(ChangedTo(p.bombState, s.bombState, "planted"), BombPlanted, s)
    + When(ChangedTo(p.bombState, s.bombState, "defused"), BombDefused, s)
    + When(ChangedTo(p.bombState, s.bombState, "exploded"), BombExploded, s)
    + When(p.bombState == Some("planted") && s.bombState != Some("planted"), BombStateCleared, s)
  }

  predicate GameOverStarted(p: GameState, s: GameState) {
    ChangedTo(p.mapPhase, s.mapPhase, "gameover")
  }

  predicate WinnerAppeared(p: GameState, s: GameState) {
    s.roundWinner.Some? && p.roundWinner != s.roundWinner
  }

  predicate RoundEndEvidence(p: GameState, s: GameState) {
    p.roundPhase == Some("live")
    && (|| s.roundPhase == Some("over")
        || Rose(p.mapRound, s.mapRound)
        || WinnerAppeared(p, s)
        || GameOverStarted(p, s))
  }

  function EndedRound(p: GameState, s: GameState): int {
    if p.mapRound.Some? then p.mapRound.value
    else if s.mapRound.Some? then s.mapRound.value
    else -1
  }

  function LastEndedAfter(m: DetectorMemory, p: GameState, s: GameState): Option<int> {
    if RoundEndEvidence(p, s) then Some(EndedRound(p, s)) else m.lastEndedRound
  }

  function OutcomeTeam(m: DetectorMemory, s: GameState): Option<string> {
    if m.localTeam.Some? then m.localTeam
    else if s.localPlayerValid then s.playerTeam
    else None
  }

  predicate OutcomeDue(m: DetectorMemory, p: GameState, s: GameState) {
    && s.roundWinner.Some?
    && OutcomeTeam(m, s).Some?
    && LastEndedAfter(m, p, s).Some?
    && (RoundEndEvidence(p, s) || WinnerAppeared(p, s))
    && m.lastOutcomeRound != LastEndedAfter(m, p, s)
  }

  function OutcomeAfter(m: DetectorMemory, p: GameState, s: GameState): Option<int> {
    if OutcomeDue(m, p, s) then LastEndedAfter(m, p, s) else m.lastOutcomeRound
  }

  function RoundEnd(m: DetectorMemory, p: GameState, s: GameState): (r: seq<Event>)
    ensures forall e :: e in r ==> e.kind == RoundEnded
  {
    if m.lastEndedRound == LastEndedAfter(m, p, s) then []
    else [Make(RoundEnded, s).(value := LastEndedAfter(m, p, s),
                               after := if s.roundWinner.Some? then s.roundWinner.value else "")]
  }

  function Outcome(m: DetectorMemory, p: GameState, s: GameState): (r: seq<Event>)
    ensures forall e :: e in r ==> e.kind in {RoundWon, RoundLost}
  {
    if !OutcomeDue(m, p, s) then []
    else [Make(if s.roundWinner == OutcomeTeam(m, s) then RoundWon else RoundLost, s)
          .(value := LastEndedAfter(m, p, s), before := OutcomeTeam(m, s).value, after := s.roundWinner.value)]
  }

  function RoundClose(m: DetectorMemory, p: GameState, s: GameState): (r: seq<Event>)
    ensures forall e :: e in r ==> e.kind in {RoundEnded, RoundWon, RoundLost}
  {
    RoundEnd(m, p, s) + Outcome(m, p, s)
  }

  predicate RoundStarts(p: GameState, s: GameState) {
    p.roundPhase == Some("freezetime") && s.roundPhase == Some("live")
  }

  function RoundPhases(p: GameState, s: GameState): (r: seq<Event>)
    ensures forall e :: e in r ==> e.kind in {FreezeStarted, FreezeEnded, RoundStarted, HalftimeStarted, HalftimeEnded}
  {
    When(ChangedTo(p.roundPhase, s.roundPhase, "freezetime") && s.mapPhase != Some("gameover"), FreezeStarted, s)
    + When(RoundStarts(p, s), FreezeEnded, s)
    + When(RoundStarts(p, s), RoundStarted, s)
    + When(ChangedTo(p.mapPhase, s.mapPhase, "intermission"), HalftimeStarted, s)
    + When(p.mapPhase == Some("intermission") && s.mapPhase != Some("intermission"), HalftimeEnded, s)
  }

  function TeamChange(m: DetectorMemory, s: GameState): (r: seq<Event>)
    ensures forall e :: e in r ==> e.kind == TeamChanged
  {
    if s.localPlayerValid && s.playerTeam.Some? && m.localTeam.Some? && s.playerTeam != m.localTeam
    then [Make(TeamChanged, s).(before := m.localTeam.value, after := s.playerTeam.value)]
    else []
  }

  function PhaseChanges(m: DetectorMemory, p: GameState, s: GameState): (r: seq<Event>)
    ensures forall e :: e in r ==>
      e.kind in {FreezeStarted, FreezeEnded, RoundStarted, HalftimeStarted, HalftimeEnded, TeamChanged, GameOver}
  {
    RoundPhases(p, s) + TeamChange(m, s) + When(GameOverStarted(p, s), GameOver, s)
  }

  /** What two adjacent snapshots alone reveal. */
  function Changes(m: DetectorMemory, p: GameState, s: GameState): seq<Event> {
    Pairwise(p, s) + BombChanges(p, s) + RoundClose(m, p, s) + PhaseChanges(m, p, s)
  }

  lemma Regroup(a: seq<Event>, b: seq<Event>, c: seq<Event>, d: seq<Event>)
    ensures a + (b + c + d) == a + b + c + d
  {
  }

  lemma ChangesFrame(m: DetectorMemory, m': DetectorMemory, p: GameState, s: GameState)
    requires m.lastEndedRound == m'.lastEndedRound && m.lastOutcomeRound == m'.lastOutcomeRound
    requires m.localTeam == m'.localTeam
    ensures Changes(m, p, s) == Changes(m', p, s)
    ensures LastEndedAfter(m, p, s) == LastEndedAfter(m', p, s) && OutcomeAfter(m, p, s) == OutcomeAfter(m', p, s)
  {
    assert RoundClose(m, p, s) == RoundClose(m', p, s);
    assert PhaseChanges(m, p, s) == PhaseChanges(m', p, s);
  }

  function Newest<T>(current: Option<T>, known: Option<T>): Option<T> {
    if current.Some? then current else known
  }

  /** The last-known local values, refreshed only from a local snapshot. */
  function Remember(m: DetectorMemory, s: GameState): DetectorMemory {
    if !s.localPlayerValid then m
    else m.(localHp := Newest(s.health, m.localHp),
            localMvps := Newest(s.mvps, m.localMvps),
            localAssists := Newest(s.assists, m.localAssists),
            localTeam := Newest(s.playerTeam, m.localTeam))
  }

  /** A snapshot that neither opens the stream nor leaves the match. */
  function Advance(m: DetectorMemory, p: GameState, s: GameState, entered: bool): (DetectorMemory, seq<Event>) {
    var events := Opening(m, entered, s) + Restoration(m, s) + Changes(m, p, s);
    var next := Remember(m, s).(
      previous := Some(s),
      lastEndedRound := LastEndedAfter(m, p, s),
      lastOutcomeRound := OutcomeAfter(m, p, s),
      everAcquired := m.everAcquired || AcquiredNow(m, s),
      lost := (m.lost || LostNow(m, s)) && !RestoredNow(m, s));
    (next, events)
  }

  predicate Leaves(m: DetectorMemory, s: GameState) {
    m.previous.Some? && m.previous.value.mapName.Some? && s.mapName.None?
  }

  predicate Enters(m: DetectorMemory, s: GameState) {
    s.mapName.Some? && (m.previous.None? || m.previous.value.mapName.None?)
  }

  /** The memory that the rest of a call works with: wiped on entering a match. */
  function Entry(m: DetectorMemory, s: GameState): DetectorMemory {
    if m.previous.Some? && Enters(m, s) then Wiped(m.previous) else m
  }

  function Detect(m: DetectorMemory, s: GameState): (DetectorMemory, seq<Event>) {
    if !s.payloadValid then (m, [])
    else if m.previous.None? then
      (Remember(m, s).(previous := Some(s), everAcquired := m.everAcquired || (s.mapName.Some? && s.localPlayerValid)),
       When(s.mapName.Some?, MatchEntered, s)
       + When(s.mapName.Some? && s.localPlayerValid, LocalPlayerAcquired, s))
    else if Leaves(m, s) then (Wiped(Some(s)), [Make(MatchLeft, s)])
    else Advance(Entry(m, s), m.previous.value, s, Enters(m, s))
  }

  // ----- The detector object -----

  class EventDetector {
    var previous: Option<GameState>
    var lastEndedRound: Option<int>
    var lastOutcomeRound: Option<int>
    var lastKnownLocalHp: Option<int>
    var lastKnownLocalMvps: Option<int>
    var lastKnownLocalAssists: Option<int>
    var lastKnownLocalTeam: Option<string>
    var localPlayerEverAcquired: bool
    var localObservationLost: bool

    ghost function State(): DetectorMemory
      reads this
    {
      MemoryOf(previous, lastEndedRound, lastOutcomeRound, lastKnownLocalHp, lastKnownLocalMvps,
             lastKnownLocalAssists, lastKnownLocalTeam, localPlayerEverAcquired, localObservationLost)
    }

    constructor ()
      ensures State() == BLANK
    {
      previous, lastEndedRound, lastOutcomeRound := None, None, None;
      lastKnownLocalHp, lastKnownLocalMvps, lastKnownLocalAssists, lastKnownLocalTeam := None, None, None, None;
      localPlayerEverAcquired, localObservationLost := false, false;
    }

    method ClearMatchMemory()
      modifies this
      ensures State() == Wiped(old(previous))
    {
      lastEndedRound, lastOutcomeRound := None, None;
      lastKnownLocalHp, lastKnownLocalMvps, lastKnownLocalAssists, lastKnownLocalTeam := None, None, None, None;
      localPlayerEverAcquired, localObservationLost := false, false;
    }

    method Reset()
      modifies this
      ensures State() == BLANK
    {
      previous := None;
      ClearMatchMemory();
    }

    method RememberLocal(current: GameState)
      modifies this
      ensures State() == Remember(old(State()), current)
    {
      if current.localPlayerValid {
        if current.health.Some? { lastKnownLocalHp := current.health; }
        if current.mvps.Some? { lastKnownLocalMvps := current.mvps; }
        if current.assists.Some? { lastKnownLocalAssists := current.assists; }
        if current.playerTeam.Some? { lastKnownLocalTeam := current.playerTeam; }
      }
    }

    /** Acquisition, loss and restoration of the local player's point of view. */
    method TrackLocalPlayer(current: GameState) returns (events: seq<Event>)
      modifies this`localPlayerEverAcquired, this`localObservationLost
      ensures events ==
        When(AcquiredNow(old(State()), current), LocalPlayerAcquired, current)
        + When(LostNow(old(State()), current), LocalPlayerLost, current)
        + Restoration(old(State()), current)
      ensures State() == old(State()).(
        everAcquired := old(State()).everAcquired || AcquiredNow(old(State()), current),
        lost := (old(State()).lost || LostNow(old(State()), current)) && !RestoredNow(old(State()), current))
    {
      var acquired, lost, restored := [], [], [];
      if current.mapName.Some? && current.localPlayerValid && !localPlayerEverAcquired {
        acquired := [Make(LocalPlayerAcquired, current)];
        localPlayerEverAcquired := true;
      }
      var currentIsOther := current.providerId.Some? && current.observedId.Some? && !current.localPlayerValid;
      if localPlayerEverAcquired && currentIsOther && !localObservationLost {
        lost := [Make(LocalPlayerLost, current)];
        localObservationLost := true;
      }
      var restoring := localPlayerEverAcquired && localObservationLost && current.localPlayerValid;
      assert restoring == RestoredNow(old(State()), current);
      if restoring {
        restored := [Make(LocalPlayerRestored, current)]
          + When(IsZero(lastKnownLocalHp) && Positive(current.health), PlayerRespawned, current)
          + Rise(MvpGained, lastKnownLocalMvps, current.mvps, current)
          + Rise(PlayerAssist, lastKnownLocalAssists, current.assists, current);
        localObservationLost := false;
      }
      events := acquired + lost + restored;
    }

    method CompareHealth(p: GameState, current: GameState) returns (events: seq<Event>)
      ensures events == Health(p, current)
    {
      var damage, life := [], [];
      if p.health.Some? && current.health.Some? {
        if current.health.value < p.health.value {
          damage := [Make(PlayerDamaged, current).(
            amount := Some(p.health.value - current.health.value), value := current.health)];
        }
        if p.health.value > 0 && current.health.value == 0 {
          life := [Make(PlayerDied, current)];
        } else if p.health.value == 0 && current.health.value > 0 {
          life := [Make(PlayerRespawned, current)];
        }
      }
      events := damage + life;
    }

    method CompareKills(p: GameState, current: GameState) returns (events: seq<Event>)
      ensures events == Kills(p, current)
    {
      var kill, candidate := [], [];
      if p.roundKills.Some? && current.roundKills.Some? && current.roundKills.value > p.roundKills.value {
        kill := [Make(PlayerKill, current).(
          amount := Some(current.roundKills.value - p.roundKills.value), value := current.roundKills)];
        var liveKill := p.roundPhase == Some("live") || current.roundPhase == Some("live");
        var threshold := AceCandidateThreshold(current);
        if liveKill && threshold.Some? && p.roundKills.value < threshold.value && current.roundKills.value >= threshold.value {
          candidate := [Make(AceCandidate, current).(
            evidence := ModeAssumption, sources := {Gsi, ModeRules}, value := current.roundKills)];
        }
      }
      events := kill + candidate;
    }

    /** Health and counters of two adjacent local snapshots. */
    method CompareLocal(p: GameState, current: GameState) returns (events: seq<Event>)
      ensures events == Pairwise(p, current)
    {
      events := [];
      if p.localPlayerValid && current.localPlayerValid {
        events := CompareHealth(p, current);
        var kills := CompareKills(p, current);
        events := events + kills;
        events := events + Rise(PlayerHeadshotKill, p.roundHeadshotKills, current.roundHeadshotKills, current);
        events := events + Rise(PlayerAssist, p.assists, current.assists, current);
        events := events + Onset(PlayerFlashed, p.flashed, current.flashed, current);
        events := events + Onset(PlayerSmoked, p.smoked, current.smoked, current);
        events := events + Onset(PlayerBurning, p.burning, current.burning, current);
        events := events + Rise(MvpGained, p.mvps, current.mvps, current);
      }
    }

    method CompareBomb(p: GameState, current: GameState) returns (events: seq<Event>)
      ensures events == BombChanges(p, current)
    {
      events := When(ChangedTo(p.bombState, current.bombState, "planted"), BombPlanted, current);
      events := events + When(ChangedTo(p.bombState, current.bombState, "defused"), BombDefused, current);
      events := events + When(ChangedTo(p.bombState, current.bombState, "exploded"), BombExploded, current);
      events := events + When(p.bombState == Some("planted") && current.bombState != Some("planted"),
                              BombStateCleared, current);
    }

    /** Round end, deduplicated by round number. */
    method EndRound(p: GameState, current: GameState) returns (events: seq<Event>, evidence: bool, endedRound: Option<int>)
      modifies this`lastEndedRound
      ensures events == RoundEnd(old(State()), p, current)
      ensures evidence == RoundEndEvidence(p, current)
      ensures endedRound == if evidence then Some(EndedRound(p, current)) else None
      ensures lastEndedRound == LastEndedAfter(old(State()), p, current)
    {
      events := [];
      var previousLive := p.roundPhase == Some("live");
      var phaseOver := previousLive && current.roundPhase == Some("over");
      var roundAdvanced := p.mapRound.Some? && current.mapRound.Some? && current.mapRound.value > p.mapRound.value;
      var gameOverStarted := ChangedTo(p.mapPhase, current.mapPhase, "gameover");
      evidence := previousLive && (phaseOver || roundAdvanced || WinnerAppeared(p, current) || gameOverStarted);

      endedRound := None;
      if evidence {
        endedRound := Some(
          if p.mapRound.Some? then p.mapRound.value
          else if current.mapRound.Some? then current.mapRound.value else -1);
        if lastEndedRound.None? || lastEndedRound.value != endedRound.value {
          var event := Make(RoundEnded, current).(value := endedRound);
          if current.roundWinner.Some? {
            event := event.(after := current.roundWinner.value);
          }
          events := [event];
          lastEndedRound := endedRound;
        }
      }
    }

    /** The local outcome, at most once for each ended round. */
    method CloseRound(p: GameState, current: GameState) returns (events: seq<Event>)
      modifies this`lastEndedRound, this`lastOutcomeRound
      ensures events == RoundClose(old(State()), p, current)
      ensures lastEndedRound == LastEndedAfter(old(State()), p, current)
      ensures lastOutcomeRound == OutcomeAfter(old(State()), p, current)
    {
      var ended, evidence, endedRound := EndRound(p, current);
      var outcome := [];
      var outcomeTeam := if lastKnownLocalTeam.Some? then lastKnownLocalTeam
                         else if current.localPlayerValid then current.playerTeam else None;
      var outcomeRound := if endedRound.Some? then endedRound else lastEndedRound;
      if current.roundWinner.Some? && outcomeTeam.Some? && outcomeRound.Some?
         && (evidence || WinnerAppeared(p, current))
         && (lastOutcomeRound.None? || lastOutcomeRound.value != outcomeRound.value) {
        var kind := if current.roundWinner.value == outcomeTeam.value then RoundWon else RoundLost;
        outcome := [Make(kind, current).(
          value := outcomeRound, before := outcomeTeam.value, after := current.roundWinner.value)];
        lastOutcomeRound := outcomeRound;
      }
      events := ended + outcome;
    }

    method ComparePhases(p: GameState, current: GameState) returns (events: seq<Event>)
      ensures events == PhaseChanges(State(), p, current)
    {
      var team := [];
      events := When(ChangedTo(p.roundPhase, current.roundPhase, "freezetime") && current.mapPhase != Some("gameover"),
                     FreezeStarted, current);
      var live := p.roundPhase == Some("freezetime") && current.roundPhase == Some("live");
      events := events + When(live, FreezeEnded, current);
      events := events + When(live, RoundStarted, current);
      events := events + When(ChangedTo(p.mapPhase, current.mapPhase, "intermission"), HalftimeStarted, current);
      events := events + When(p.mapPhase == Some("intermission") && current.mapPhase != Some("intermission"),
                              HalftimeEnded, current);
      if current.localPlayerValid && current.playerTeam.Some? && lastKnownLocalTeam.Some?
         && current.playerTeam.value != lastKnownLocalTeam.value {
        team := [Make(TeamChanged, current).(
          before := lastKnownLocalTeam.value, after := current.playerTeam.value)];
      }
      events := events + team;
      events := events + When(ChangedTo(p.mapPhase, current.mapPhase, "gameover"), GameOver, current);
    }

    /** The first snapshot of the stream has nothing to be compared with. */
    method Begin(current: GameState) returns (events: seq<Event>)
      requires previous.None? && current.payloadValid
      modifies this
      ensures State() == Detect(old(State()), current).0
      ensures events == Detect(old(State()), current).1
    {
      events := [];
      if current.mapName.Some? {
        events := [Make(MatchEntered, current)];
        if current.localPlayerValid {
          events := events + [Make(LocalPlayerAcquired, current)];
          localPlayerEverAcquired := true;
        }
      }
      RememberLocal(current);
      previous := Some(current);
    }

    method CompareSnapshots(p: GameState, current: GameState) returns (events: seq<Event>)
      modifies this`lastEndedRound, this`lastOutcomeRound
      ensures events == Changes(old(State()), p, current)
      ensures lastEndedRound == LastEndedAfter(old(State()), p, current)
      ensures lastOutcomeRound == OutcomeAfter(old(State()), p, current)
    {
      events := CompareLocal(p, current);
      var bomb := CompareBomb(p, current);
      var closed := CloseRound(p, current);
      var phases := ComparePhases(p, current);
      assert phases == PhaseChanges(old(State()), p, current);
      events := events + bomb + closed + phases;
    }

    /** Everything after the match boundary check; `entered` says that a match was just entered. */
    method Compare(p: GameState, current: GameState, opening: seq<Event>, ghost entered: bool) returns (events: seq<Event>)
      requires opening == When(entered, MatchEntered, current)
      modifies this
      ensures State() == Advance(old(State()), p, current, entered).0
      ensures events == Advance(old(State()), p, current, entered).1
    {
      ghost var m := State();
      var tracked := TrackLocalPlayer(current);
      ghost var m' := State();
      var changes := CompareSnapshots(p, current);
      ChangesFrame(m, m', p, current);
      events := opening + tracked + changes;
      Regroup(opening, When(AcquiredNow(m, current), LocalPlayerAcquired, current),
              When(LostNow(m, current), LocalPlayerLost, current), Restoration(m, current));
      RememberLocal(current);
      previous := Some(current);
    }

    method Process(current: GameState) returns (events: seq<Event>)
      modifies this
      ensures State() == Detect(old(State()), current).0
      ensures events == Detect(old(State()), current).1
    {
      events := [];
      if !current.payloadValid {
        return;
      }
      if previous.None? {
        events := Begin(current);
        return;
      }
      var p := previous.value;
      if p.mapName.None? && current.mapName.Some? {
        ClearMatchMemory();
        events := events + [Make(MatchEntered, current)];
      } else if p.mapName.Some? && current.mapName.None? {
        events := events + [Make(MatchLeft, current)];
        ClearMatchMemory();
        previous := Some(current);
        return;
      }
      assert events == When(Enters(old(State()), current), MatchEntered, current);
      events := Compare(p, current, events, Enters(old(State()), current));
    }
  }
}
