/** What a stream of snapshots should be reported as, read off the snapshots alone: no memory,
    no flags, and none of the detector's own helpers. The theorem is that the detector reports it. */
module DetectorReference {
  import opened Telemetry
  import opened EventDetection
  import opened DetectorTheorems

  // ----- Reading a history of usable snapshots, the last one being the current one -----

  function Now(h: seq<GameState>): GameState
    requires h != []
  {
    h[|h| - 1]
  }

  predicate HasBefore(h: seq<GameState>) { |h| >= 2 }

  function Prev(h: seq<GameState>): GameState
    requires HasBefore(h)
  {
    h[|h| - 2]
  }

  predicate Left(h: seq<GameState>) { HasBefore(h) && Prev(h).mapName.Some? && Now(h).mapName.None? }

  predicate Entered(h: seq<GameState>) {
    h != [] && Now(h).mapName.Some? && (HasBefore(h) ==> Prev(h).mapName.None?)
  }

  /** The first snapshot of the stretch that counts: since the last match boundary. */
  function StretchStart(h: seq<GameState>): (k: nat)
    ensures k <= |h|
  {
    if Left(h) then |h|
    else if HasBefore(h) && Prev(h).mapName.None? && Now(h).mapName.Some? then |h| - 1
    else if h == [] then 0
    else StretchStart(h[..|h| - 1])
  }

  /** The snapshots of the stretch before the current one. */
  function Past(h: seq<GameState>): seq<GameState>
    requires h != [] && !Left(h)
  {
    if StretchStart(h) == |h| then [] else h[StretchStart(h)..|h| - 1]
  }

  predicate LocalShown(past: seq<GameState>) {
    exists k :: 0 <= k < |past| && past[k].localPlayerValid && past[k].mapName.Some?
  }

  predicate Other(s: GameState) { s.providerId.Some? && s.observedId.Some? && !s.localPlayerValid }

  /** Since the local player was last shown, another player was. */
  predicate Away(past: seq<GameState>) {
    exists k :: 0 <= k < |past| && Other(past[k]) && LocalShown(past[..k])
      && forall j :: k < j < |past| ==> !past[j].localPlayerValid
  }

  datatype Quantity = HealthQ | AssistsQ | MvpsQ

  function Shown(q: Quantity, s: GameState): Option<int> {
    if !s.localPlayerValid then None
    else match q case HealthQ => s.health case AssistsQ => s.assists case MvpsQ => s.mvps
  }

  /** The last value that a snapshot of the local player showed. */
  function LastShown(q: Quantity, past: seq<GameState>): Option<int> {
    if past == [] then None
    else if Shown(q, past[|past| - 1]).Some? then Shown(q, past[|past| - 1])
    else LastShown(q, past[..|past| - 1])
  }

  function LastTeam(past: seq<GameState>): Option<string> {
    if past == [] then None
    else
      var s := past[|past| - 1];
      if s.localPlayerValid && s.playerTeam.Some? then s.playerTeam else LastTeam(past[..|past| - 1])
  }

  // ----- Rounds -----

  predicate Above(a: Option<int>, b: Option<int>) { a.Some? && b.Some? && a.value > b.value }

  predicate NewWinner(p: GameState, s: GameState) { s.roundWinner.Some? && s.roundWinner != p.roundWinner }

  /** A live round is over: by its phase, by the round counter, by a winner or by the end of the game. */
  predicate Ends(p: GameState, s: GameState) {
    && p.roundPhase == Some("live")
    && (|| s.roundPhase == Some("over")
        || Above(s.mapRound, p.mapRound)
        || NewWinner(p, s)
        || (s.mapPhase == Some("gameover") && p.mapPhase != Some("gameover")))
  }

  function EndedNumber(p: GameState, s: GameState): int {
    match p.mapRound
    case Some(r) => r
    case None => match s.mapRound case Some(r) => r case None => -1
  }

  /** The number of the last round that ended at snapshots `k..n`. */
  function LastEnd(h: seq<GameState>, k: nat, n: nat): Option<int>
    requires n <= |h|
    decreases n
  {
    if n <= k || n <= 1 then None
    else if Ends(h[n - 2], h[n - 1]) then Some(EndedNumber(h[n - 2], h[n - 1]))
    else LastEnd(h, k, n - 1)
  }

  /** The local team: the last shown in the stretch, else the one shown now. */
  function TeamNow(h: seq<GameState>): Option<string>
    requires h != [] && !Left(h)
  {
    if LastTeam(Past(h)).Some? then LastTeam(Past(h))
    else if Now(h).localPlayerValid then Now(h).playerTeam else None
  }

  /** Is the current snapshot the one that decides a round for the local team? */
  predicate Decides(h: seq<GameState>)
    decreases |h|, 1, 0
  {
    && HasBefore(h) && !Left(h)
    && Now(h).roundWinner.Some? && TeamNow(h).Some?
    && LastEnd(h, StretchStart(h), |h|).Some?
    && (Ends(Prev(h), Now(h)) || NewWinner(Prev(h), Now(h)))
    && LastDecided(h, StretchStart(h), |h| - 1) != LastEnd(h, StretchStart(h), |h|)
  }

  /** The number of the last round that was decided at snapshots `k..n`. */
  function LastDecided(h: seq<GameState>, k: nat, n: nat): Option<int>
    requires n < |h|
    decreases |h|, 0, n
  {
    if n <= k then None
    else if Decides(h[..n]) then LastEnd(h[..n], StretchStart(h[..n]), n)
    else LastDecided(h, k, n - 1)
  }

  // ----- When each kind is reported -----

  predicate BothLocal(h: seq<GameState>) { HasBefore(h) && Prev(h).localPlayerValid && Now(h).localPlayerValid }

  /** The local player is shown again after another player was. */
  predicate Back(h: seq<GameState>) { HasBefore(h) && !Left(h) && Now(h).localPlayerValid && Away(Past(h)) }

  predicate Turns(before: Option<string>, now: Option<string>, to: string) { before != Some(to) && now == Some(to) }

  predicate Starts(before: Option<int>, now: Option<int>) {
    now.Some? && now.value > 0 && !(before.Some? && before.value > 0)
  }

  /** Kills that suggest an ace: the enemies a mode fields against the local player. */
  function Enough(s: GameState): Option<int> {
    match s.mapMode
    case Some(mode) =>
      if mode == "competitive" then Some(5)
      else if mode == "retakes" && s.playerTeam == Some("CT") then Some(3)
      else if mode == "retakes" && s.playerTeam == Some("T") then Some(4)
      else None
    case None => None
  }

  /** Alive again, or dead, between two readings of health. */
  predicate Revives(before: Option<int>, now: Option<int>) { before == Some(0) && now.Some? && now.value > 0 }

  predicate Reports(kind: EventKind, h: seq<GameState>)
    requires h != []
  {
    if Left(h) then kind == MatchLeft
    else
      var s := Now(h);
      match kind
      case MatchEntered => Entered(h)
      case MatchLeft => false
      case LocalPlayerAcquired => s.mapName.Some? && s.localPlayerValid && !LocalShown(Past(h))
      case LocalPlayerLost => HasBefore(h) && Other(s) && LocalShown(Past(h)) && !Away(Past(h))
      case LocalPlayerRestored => Back(h)
      case PlayerRespawned =>
        (Back(h) && Revives(LastShown(HealthQ, Past(h)), s.health)) || (BothLocal(h) && Revives(Prev(h).health, s.health))
      case PlayerDamaged => BothLocal(h) && Above(Prev(h).health, s.health)
      case PlayerDied => BothLocal(h) && s.health == Some(0) && Prev(h).health.Some? && Prev(h).health.value > 0
      case PlayerKill => BothLocal(h) && Above(s.roundKills, Prev(h).roundKills)
      case AceCandidate =>
        && BothLocal(h) && Above(s.roundKills, Prev(h).roundKills)
        && (Prev(h).roundPhase == Some("live") || s.roundPhase == Some("live"))
        && Enough(s).Some? && Prev(h).roundKills.value < Enough(s).value && s.roundKills.value >= Enough(s).value
      case PlayerHeadshotKill => BothLocal(h) && Above(s.roundHeadshotKills, Prev(h).roundHeadshotKills)
      case PlayerAssist =>
        (Back(h) && Above(s.assists, LastShown(AssistsQ, Past(h)))) || (BothLocal(h) && Above(s.assists, Prev(h).assists))
      case MvpGained =>
        (Back(h) && Above(s.mvps, LastShown(MvpsQ, Past(h)))) || (BothLocal(h) && Above(s.mvps, Prev(h).mvps))
      case PlayerFlashed => BothLocal(h) && Starts(Prev(h).flashed, s.flashed)
      case PlayerSmoked => BothLocal(h) && Starts(Prev(h).smoked, s.smoked)
      case PlayerBurning => BothLocal(h) && Starts(Prev(h).burning, s.burning)
      case BombPlanted => HasBefore(h) && Turns(Prev(h).bombState, s.bombState, "planted")
      case BombDefused => HasBefore(h) && Turns(Prev(h).bombState, s.bombState, "defused")
      case BombExploded => HasBefore(h) && Turns(Prev(h).bombState, s.bombState, "exploded")
      case BombStateCleared => HasBefore(h) && Prev(h).bombState == Some("planted") && s.bombState != Some("planted")
      case RoundEnded =>
        && HasBefore(h) && Ends(Prev(h), s)
        && LastEnd(h, StretchStart(h), |h| - 1) != Some(EndedNumber(Prev(h), s))
      case RoundWon => Decides(h) && s.roundWinner == TeamNow(h)
      case RoundLost => Decides(h) && s.roundWinner != TeamNow(h)
      case FreezeStarted =>
        HasBefore(h) && Turns(Prev(h).roundPhase, s.roundPhase, "freezetime") && s.mapPhase != Some("gameover")
      case FreezeEnded => HasBefore(h) && Prev(h).roundPhase == Some("freezetime") && s.roundPhase == Some("live")
      case RoundStarted => HasBefore(h) && Prev(h).roundPhase == Some("freezetime") && s.roundPhase == Some("live")
      case HalftimeStarted => HasBefore(h) && Turns(Prev(h).mapPhase, s.mapPhase, "intermission")
      case HalftimeEnded => HasBefore(h) && Prev(h).mapPhase == Some("intermission") && s.mapPhase != Some("intermission")
      case TeamChanged =>
        && HasBefore(h) && s.localPlayerValid && s.playerTeam.Some?
        && LastTeam(Past(h)).Some? && LastTeam(Past(h)) != s.playerTeam
      case GameOver => HasBefore(h) && Turns(Prev(h).mapPhase, s.mapPhase, "gameover")
      case Ace => false
      case ClutchStarted => false
      case ClutchUpdated => false
      case ClutchEnded => false
  }

  /** A fact: the current snapshot's sequence number and time, certain, from GSI. */
  function Fact(kind: EventKind, h: seq<GameState>, amount: Option<int>, value: Option<int>, before: string, after: string): Event
    requires h != []
  {
    Event(kind, Deterministic, {Gsi}, Now(h).sequence, Now(h).relativeUs, amount, value, before, after)
  }

  function Plus(h: seq<GameState>, kind: EventKind, before: Option<int>, now: Option<int>): Event
    requires h != [] && before.Some? && now.Some?
  {
    Fact(kind, h, Some(now.value - before.value), now, "", "")
  }

  /** What the event of a reported kind says. */
  function Told(kind: EventKind, h: seq<GameState>): Event
    requires h != [] && Reports(kind, h)
  {
    var s := Now(h);
    match kind
    case PlayerDamaged => Fact(kind, h, Some(Prev(h).health.value - s.health.value), s.health, "", "")
    case PlayerKill => Plus(h, kind, Prev(h).roundKills, s.roundKills)
    case PlayerHeadshotKill => Plus(h, kind, Prev(h).roundHeadshotKills, s.roundHeadshotKills)
    case PlayerAssist =>
      if BothLocal(h) then Plus(h, kind, Prev(h).assists, s.assists)
      else Plus(h, kind, LastShown(AssistsQ, Past(h)), s.assists)
    case MvpGained =>
      if BothLocal(h) then Plus(h, kind, Prev(h).mvps, s.mvps)
      else Plus(h, kind, LastShown(MvpsQ, Past(h)), s.mvps)
    case AceCandidate =>
      Event(kind, ModeAssumption, {Gsi, ModeRules}, s.sequence, s.relativeUs, None, s.roundKills, "", "")
    case PlayerFlashed => Fact(kind, h, None, s.flashed, "", "")
    case PlayerSmoked => Fact(kind, h, None, s.smoked, "", "")
    case PlayerBurning => Fact(kind, h, None, s.burning, "", "")
    case RoundEnded =>
      Fact(kind, h, None, Some(EndedNumber(Prev(h), s)), "", if s.roundWinner.Some? then s.roundWinner.value else "")
    case RoundWon => Fact(kind, h, None, LastEnd(h, StretchStart(h), |h|), TeamNow(h).value, s.roundWinner.value)
    case RoundLost => Fact(kind, h, None, LastEnd(h, StretchStart(h), |h|), TeamNow(h).value, s.roundWinner.value)
    case TeamChanged => Fact(kind, h, None, None, LastTeam(Past(h)).value, s.playerTeam.value)
    case _ => Fact(kind, h, None, None, "", "")
  }

  // ----- The batch -----

  const OPENING := [MatchEntered, LocalPlayerAcquired, LocalPlayerLost]
  const RETURN := [LocalPlayerRestored, PlayerRespawned, MvpGained, PlayerAssist]
  const LOCAL := [PlayerDamaged, PlayerDied, PlayerRespawned, PlayerKill, AceCandidate, PlayerHeadshotKill,
                  PlayerAssist, PlayerFlashed, PlayerSmoked, PlayerBurning, MvpGained]
  const BOMB := [BombPlanted, BombDefused, BombExploded, BombStateCleared]
  const ROUND := [RoundEnded, RoundWon, RoundLost]
  const PHASE := [FreezeStarted, FreezeEnded, RoundStarted, HalftimeStarted, HalftimeEnded, TeamChanged, GameOver]

  /** Those of `kinds` that are reported, in that order. */
  function Listed(kinds: seq<EventKind>, h: seq<GameState>): seq<Event>
    requires h != []
  {
    if kinds == [] then []
    else
      var last := kinds[|kinds| - 1];
      Listed(kinds[..|kinds| - 1], h) + if Reports(last, h) then [Told(last, h)] else []
  }

  /** The order in which a batch lists its kinds. */
  function Agenda(h: seq<GameState>): seq<EventKind>
    requires h != []
  {
    if Left(h) then [MatchLeft]
    else OPENING + (if Back(h) then RETURN else LOCAL) + BOMB + ROUND + PHASE
  }

  function Report(h: seq<GameState>): seq<Event>
    requires h != []
  {
    Listed(Agenda(h), h)
  }

  // ----- Lists of kinds -----

  function One(kind: EventKind, h: seq<GameState>): seq<Event>
    requires h != []
  {
    if Reports(kind, h) then [Told(kind, h)] else []
  }

  lemma {:induction false} ListedConcat(a: seq<EventKind>, b: seq<EventKind>, h: seq<GameState>)
    requires h != []
    ensures Listed(a + b, h) == Listed(a, h) + Listed(b, h)
    decreases |b|
  {
    hide Reports, Told;
    if b == [] {
      assert a + b == a;
    } else {
      assert (a + b)[..|a + b| - 1] == a + b[..|b| - 1];
      ListedConcat(a, b[..|b| - 1], h);
    }
  }

  lemma Listed1(a: EventKind, h: seq<GameState>)
    requires h != []
    ensures Listed([a], h) == One(a, h)
  {
    hide Reports, Told;
    assert [a][..0] == [];
  }

  lemma Listed2(a: EventKind, b: EventKind, h: seq<GameState>)
    requires h != []
    ensures Listed([a, b], h) == One(a, h) + One(b, h)
  {
    hide One, Listed;
    assert [a, b] == [a] + [b];
    ListedConcat([a], [b], h);
    Listed1(a, h);
    Listed1(b, h);
  }

  lemma Listed3(a: EventKind, b: EventKind, c: EventKind, h: seq<GameState>)
    requires h != []
    ensures Listed([a, b, c], h) == One(a, h) + One(b, h) + One(c, h)
  {
    hide One, Listed;
    assert [a, b, c] == [a, b] + [c];
    ListedConcat([a, b], [c], h);
    Listed2(a, b, h);
    Listed1(c, h);
  }

  lemma Listed4(a: EventKind, b: EventKind, c: EventKind, d: EventKind, h: seq<GameState>)
    requires h != []
    ensures Listed([a, b, c, d], h) == One(a, h) + One(b, h) + One(c, h) + One(d, h)
  {
    hide One, Listed;
    assert [a, b, c, d] == [a, b, c] + [d];
    ListedConcat([a, b, c], [d], h);
    Listed3(a, b, c, h);
    Listed1(d, h);
  }

  // ----- What the memory recalls of a history -----

  /** The detector's memory before the current snapshot is compared. */
  predicate Recalls(m: DetectorMemory, h: seq<GameState>)
    requires HasBefore(h) && !Left(h)
  {
    var k := StretchStart(h);
    && m.previous == Some(Prev(h))
    && m.localHp == LastShown(HealthQ, Past(h))
    && m.localAssists == LastShown(AssistsQ, Past(h))
    && m.localMvps == LastShown(MvpsQ, Past(h))
    && m.localTeam == LastTeam(Past(h))
    && m.everAcquired == LocalShown(Past(h))
    && m.lost == Away(Past(h))
    && m.lastEndedRound == LastEnd(h, k, |h| - 1)
    && m.lastOutcomeRound == LastDecided(h, k, |h| - 1)
  }

  /** And after it. */
  predicate Remembers(m: DetectorMemory, h: seq<GameState>)
    requires h != []
  {
    var k := StretchStart(h);
    && m.previous == Some(Now(h))
    && m.localHp == LastShown(HealthQ, h[k..])
    && m.localAssists == LastShown(AssistsQ, h[k..])
    && m.localMvps == LastShown(MvpsQ, h[k..])
    && m.localTeam == LastTeam(h[k..])
    && m.everAcquired == LocalShown(h[k..])
    && m.lost == Away(h[k..])
    && m.lastEndedRound == LastEnd(h, k, |h|)
    && m.lastOutcomeRound == (if Decides(h) then LastEnd(h, k, |h|) else LastDecided(h, k, |h| - 1))
  }

  lemma AwayFacts(past: seq<GameState>)
    ensures Away(past) ==> LocalShown(past) && !past[|past| - 1].localPlayerValid
  {
    if Away(past) {
      var k :| 0 <= k < |past| && Other(past[k]) && LocalShown(past[..k])
        && forall j :: k < j < |past| ==> !past[j].localPlayerValid;
      var i :| 0 <= i < k && past[..k][i].localPlayerValid && past[..k][i].mapName.Some?;
      assert past[i].localPlayerValid && past[i].mapName.Some?;
    }
  }

  /** While the player is back, the two snapshots are not both local. */
  lemma BackNotBoth(h: seq<GameState>)
    requires h != [] && Back(h)
    ensures !BothLocal(h)
  {
    AwayFacts(Past(h));
    assert Past(h)[|Past(h)| - 1] == Prev(h);
    hide Away, StretchStart;
  }

  // ----- Section by section -----

  lemma OpeningReports(m: DetectorMemory, h: seq<GameState>)
    requires HasBefore(h) && !Left(h) && Recalls(m, h)
    ensures Opening(m, Entered(h), Now(h)) == Listed(OPENING, h)
  {
    Listed3(MatchEntered, LocalPlayerAcquired, LocalPlayerLost, h);
    hide StretchStart, LastShown, LastTeam, LastEnd, LastDecided, LocalShown, Away, Past, Listed;
  }

  lemma ReturnOnes(m: DetectorMemory, h: seq<GameState>)
    requires HasBefore(h) && !Left(h) && Recalls(m, h) && Back(h)
    ensures
      var s := Now(h);
      && One(LocalPlayerRestored, h) == [Make(LocalPlayerRestored, s)]
      && One(PlayerRespawned, h) == When(IsZero(m.localHp) && Positive(s.health), PlayerRespawned, s)
  {
    BackNotBoth(h);
    hide Back, BothLocal;
    hide StretchStart, LastShown, LastTeam, LastEnd, LastDecided, LocalShown, Away, Past;
  }

  lemma ReturnRises(m: DetectorMemory, h: seq<GameState>)
    requires HasBefore(h) && !Left(h) && Recalls(m, h) && Back(h)
    ensures
      var s := Now(h);
      && One(MvpGained, h) == Rise(MvpGained, m.localMvps, s.mvps, s)
      && One(PlayerAssist, h) == Rise(PlayerAssist, m.localAssists, s.assists, s)
  {
    BackNotBoth(h);
    hide Back, BothLocal;
    hide StretchStart, LastShown, LastTeam, LastEnd, LastDecided, LocalShown, Away, Past;
  }

  lemma RestoredBack(m: DetectorMemory, h: seq<GameState>)
    requires HasBefore(h) && !Left(h) && Recalls(m, h)
    ensures RestoredNow(m, Now(h)) == Back(h)
  {
    AwayFacts(Past(h));
    hide StretchStart, LastShown, LastTeam, LastEnd, LastDecided, LocalShown, Away, Past;
  }

  lemma ReturnReports(m: DetectorMemory, h: seq<GameState>)
    requires HasBefore(h) && !Left(h) && Recalls(m, h)
    ensures Restoration(m, Now(h)) == if Back(h) then Listed(RETURN, h) else []
  {
    RestoredBack(m, h);
    if Back(h) {
      ReturnOnes(m, h);
      ReturnRises(m, h);
    }
    hide Recalls, Back, One, Listed, When, Rise, RestoredNow;
    Listed4(LocalPlayerRestored, PlayerRespawned, MvpGained, PlayerAssist, h);
  }

  lemma DamagedOne(h: seq<GameState>)
    requires BothLocal(h) && !Left(h)
    ensures
      var p, s := Prev(h), Now(h);
      One(PlayerDamaged, h) ==
        if p.health.Some? && s.health.Some? && s.health.value < p.health.value
        then [Make(PlayerDamaged, s).(amount := Some(p.health.value - s.health.value), value := s.health)] else []
  {
    hide StretchStart, LastShown, LastTeam, LastEnd, LastDecided, LocalShown, Away, Past, Decides, TeamNow, Ends, Left, Back, Entered;
  }

  lemma DeathOnes(h: seq<GameState>)
    requires BothLocal(h) && !Left(h) && !Back(h)
    ensures
      var p, s := Prev(h).health, Now(h).health;
      && One(PlayerDied, h) == When(p.Some? && s.Some? && p.value > 0 && s.value == 0, PlayerDied, Now(h))
      && One(PlayerRespawned, h) == When(p.Some? && s.Some? && p.value == 0 && s.value > 0, PlayerRespawned, Now(h))
  {
    hide StretchStart, LastShown, LastTeam, LastEnd, LastDecided, LocalShown, Away, Past, Decides, TeamNow, Ends, Left, Back, Entered;
  }

  lemma HealthReports(h: seq<GameState>)
    requires BothLocal(h) && !Left(h) && !Back(h)
    ensures Health(Prev(h), Now(h)) == One(PlayerDamaged, h) + One(PlayerDied, h) + One(PlayerRespawned, h)
  {
    hide One, Left, Back, When;
    DamagedOne(h);
    DeathOnes(h);
    if Prev(h).health.None? || Now(h).health.None? {
      NoneWhen(PlayerDied, Now(h));
      NoneWhen(PlayerRespawned, Now(h));
    }
  }

  lemma NoneWhen(kind: EventKind, s: GameState)
    ensures When(false, kind, s) == []
  {
  }

  lemma KillsReports(h: seq<GameState>)
    requires BothLocal(h) && !Left(h) && !Back(h)
    ensures Kills(Prev(h), Now(h)) == One(PlayerKill, h) + One(AceCandidate, h)
  {
    hide StretchStart, LastShown, LastTeam, LastEnd, LastDecided, LocalShown, Away, Past, AceCandidateThreshold, Enough;
    ThresholdReports(Now(h));
  }

  lemma ThresholdReports(s: GameState)
    ensures AceCandidateThreshold(s) == Enough(s)
  {
  }

  lemma HeadshotOne(h: seq<GameState>)
    requires BothLocal(h) && !Left(h)
    ensures Rise(PlayerHeadshotKill, Prev(h).roundHeadshotKills, Now(h).roundHeadshotKills, Now(h)) == One(PlayerHeadshotKill, h)
  {
    hide StretchStart, LastShown, LastTeam, LastEnd, LastDecided, LocalShown, Away, Past, Decides, TeamNow, Ends, Left, Back, Entered;
  }

  lemma AssistOne(h: seq<GameState>)
    requires BothLocal(h) && !Left(h) && !Back(h)
    ensures Rise(PlayerAssist, Prev(h).assists, Now(h).assists, Now(h)) == One(PlayerAssist, h)
  {
    hide StretchStart, LastShown, LastTeam, LastEnd, LastDecided, LocalShown, Away, Past, Decides, TeamNow, Ends, Left, Back, Entered;
  }

  lemma MvpOne(h: seq<GameState>)
    requires BothLocal(h) && !Left(h) && !Back(h)
    ensures Rise(MvpGained, Prev(h).mvps, Now(h).mvps, Now(h)) == One(MvpGained, h)
  {
    hide StretchStart, LastShown, LastTeam, LastEnd, LastDecided, LocalShown, Away, Past, Decides, TeamNow, Ends, Left, Back, Entered;
  }

  lemma CountersReport(h: seq<GameState>)
    requires BothLocal(h) && !Left(h) && !Back(h)
    ensures
      var p, s := Prev(h), Now(h);
      && Rise(PlayerHeadshotKill, p.roundHeadshotKills, s.roundHeadshotKills, s) == One(PlayerHeadshotKill, h)
      && Rise(PlayerAssist, p.assists, s.assists, s) == One(PlayerAssist, h)
      && Rise(MvpGained, p.mvps, s.mvps, s) == One(MvpGained, h)
  {
    HeadshotOne(h);
    AssistOne(h);
    MvpOne(h);
    hide One, Rise, Left, Back;
  }

  lemma EffectsReport(h: seq<GameState>)
    requires BothLocal(h) && !Left(h) && !Back(h)
    ensures
      var p, s := Prev(h), Now(h);
      && Onset(PlayerFlashed, p.flashed, s.flashed, s) == One(PlayerFlashed, h)
      && Onset(PlayerSmoked, p.smoked, s.smoked, s) == One(PlayerSmoked, h)
      && Onset(PlayerBurning, p.burning, s.burning, s) == One(PlayerBurning, h)
  {
    hide StretchStart, LastShown, LastTeam, LastEnd, LastDecided, LocalShown, Away, Past;
  }

  lemma RestReports(h: seq<GameState>)
    requires BothLocal(h) && !Left(h) && !Back(h)
    ensures PairwiseRest(Prev(h), Now(h)) ==
      Listed([PlayerHeadshotKill, PlayerAssist, PlayerFlashed, PlayerSmoked, PlayerBurning, MvpGained], h)
  {
    hide Rise, Onset, One, Listed, Back, Left;
    CountersReport(h);
    EffectsReport(h);
    var a, b := [PlayerHeadshotKill, PlayerAssist, PlayerFlashed], [PlayerSmoked, PlayerBurning, MvpGained];
    assert [PlayerHeadshotKill, PlayerAssist, PlayerFlashed, PlayerSmoked, PlayerBurning, MvpGained] == a + b;
    ListedConcat(a, b, h);
    Listed3(PlayerHeadshotKill, PlayerAssist, PlayerFlashed, h);
    Listed3(PlayerSmoked, PlayerBurning, MvpGained, h);
  }

  lemma NotBothLocal(kind: EventKind, h: seq<GameState>)
    requires HasBefore(h) && !Left(h) && !Back(h) && !BothLocal(h) && kind in LOCAL
    ensures !Reports(kind, h)
  {
    hide Back, BothLocal, StretchStart, LastShown, LastTeam, LastEnd, LastDecided, LocalShown, Away, Past;
  }

  lemma LocalReports(h: seq<GameState>)
    requires HasBefore(h) && !Left(h) && !Back(h)
    ensures Pairwise(Prev(h), Now(h)) == Listed(LOCAL, h)
  {
    hide Health, Kills, PairwiseRest, One, Listed, Back, Reports;
    if BothLocal(h) {
      PairwiseParts(Prev(h), Now(h));
      hide Pairwise;
      HealthReports(h);
      KillsReports(h);
      RestReports(h);
      var a, b := [PlayerDamaged, PlayerDied, PlayerRespawned], [PlayerKill, AceCandidate];
      var c := [PlayerHeadshotKill, PlayerAssist, PlayerFlashed, PlayerSmoked, PlayerBurning, MvpGained];
      assert LOCAL == a + b + c;
      ListedConcat(a, b, h);
      ListedConcat(a + b, c, h);
      Listed3(PlayerDamaged, PlayerDied, PlayerRespawned, h);
      Listed2(PlayerKill, AceCandidate, h);
    } else {
      forall k | k in LOCAL ensures !Reports(k, h) {
        NotBothLocal(k, h);
      }
      NoneListed(LOCAL, h);
    }
  }

  lemma {:induction false} NoneListed(kinds: seq<EventKind>, h: seq<GameState>)
    requires h != [] && forall k :: k in kinds ==> !Reports(k, h)
    ensures Listed(kinds, h) == []
    decreases |kinds|
  {
    hide Reports, Told;
    if kinds != [] {
      NoneListed(kinds[..|kinds| - 1], h);
    }
  }

  lemma BombOnes(h: seq<GameState>)
    requires HasBefore(h) && !Left(h)
    ensures
      var p, s := Prev(h), Now(h);
      && One(BombPlanted, h) == When(ChangedTo(p.bombState, s.bombState, "planted"), BombPlanted, s)
      && One(BombDefused, h) == When(ChangedTo(p.bombState, s.bombState, "defused"), BombDefused, s)
  {
    hide Left;
    hide StretchStart, LastShown, LastTeam, LastEnd, LastDecided, LocalShown, Away, Past;
  }

  lemma BombEnds(h: seq<GameState>)
    requires HasBefore(h) && !Left(h)
    ensures
      var p, s := Prev(h), Now(h);
      && One(BombExploded, h) == When(ChangedTo(p.bombState, s.bombState, "exploded"), BombExploded, s)
      && One(BombStateCleared, h) == When(p.bombState == Some("planted") && s.bombState != Some("planted"), BombStateCleared, s)
  {
    hide Left;
    hide StretchStart, LastShown, LastTeam, LastEnd, LastDecided, LocalShown, Away, Past;
  }

  lemma BombReports(h: seq<GameState>)
    requires HasBefore(h) && !Left(h)
    ensures BombChanges(Prev(h), Now(h)) == Listed(BOMB, h)
  {
    BombOnes(h);
    BombEnds(h);
    hide One, Listed, When, ChangedTo, Left;
    Listed4(BombPlanted, BombDefused, BombExploded, BombStateCleared, h);
  }

  lemma EndsReport(m: DetectorMemory, p: GameState, s: GameState)
    ensures RoundEndEvidence(p, s) == Ends(p, s) && WinnerAppeared(p, s) == NewWinner(p, s)
    ensures EndedRound(p, s) == EndedNumber(p, s)
  {
  }

  lemma RoundMemory(m: DetectorMemory, h: seq<GameState>)
    requires HasBefore(h) && !Left(h) && Recalls(m, h)
    ensures LastEndedAfter(m, Prev(h), Now(h)) == LastEnd(h, StretchStart(h), |h|)
    ensures OutcomeTeam(m, Now(h)) == TeamNow(h)
  {
    StartBefore(h);
    EndsReport(m, Prev(h), Now(h));
    hide RoundEndEvidence, WinnerAppeared, EndedRound, Ends, NewWinner, EndedNumber, StretchStart, Past, LastTeam, LocalShown,
         Away, LastShown, LastDecided, Left;
  }

  lemma DueDecides(m: DetectorMemory, h: seq<GameState>)
    requires HasBefore(h) && !Left(h) && Recalls(m, h)
    ensures OutcomeDue(m, Prev(h), Now(h)) == Decides(h)
    ensures OutcomeAfter(m, Prev(h), Now(h)) ==
      if Decides(h) then LastEnd(h, StretchStart(h), |h|) else LastDecided(h, StretchStart(h), |h| - 1)
  {
    RoundMemory(m, h);
    EndsReport(m, Prev(h), Now(h));
    hide LastEndedAfter, OutcomeTeam, TeamNow, LastEnd, LastDecided, StretchStart, RoundEndEvidence, Ends, WinnerAppeared,
         NewWinner, Past, LastTeam, LocalShown, Away, LastShown, Left;
  }

  lemma RoundReports(m: DetectorMemory, h: seq<GameState>)
    requires HasBefore(h) && !Left(h) && Recalls(m, h)
    ensures RoundClose(m, Prev(h), Now(h)) == Listed(ROUND, h)
  {
    hide Listed, One, OutcomeTeam, TeamNow, LastEndedAfter, OutcomeDue, Decides, Recalls, Left, StretchStart, LastEnd,
         RoundEnd, Outcome;
    RoundMemory(m, h);
    DueDecides(m, h);
    RoundEndReports(m, h);
    OutcomeReports(m, h);
    Listed3(RoundEnded, RoundWon, RoundLost, h);
  }

  lemma StartBefore(h: seq<GameState>)
    requires HasBefore(h) && !Left(h)
    ensures StretchStart(h) < |h|
  {
  }

  lemma RoundEndReports(m: DetectorMemory, h: seq<GameState>)
    requires HasBefore(h) && !Left(h) && Recalls(m, h)
    requires LastEndedAfter(m, Prev(h), Now(h)) == LastEnd(h, StretchStart(h), |h|)
    ensures RoundEnd(m, Prev(h), Now(h)) == One(RoundEnded, h)
  {
    StartBefore(h);
    EndsReport(m, Prev(h), Now(h));
    hide RoundEndEvidence, EndedRound, Ends, EndedNumber, StretchStart, Past, LastTeam, LocalShown, Away, LastShown,
         LastDecided, Decides, TeamNow;
  }

  lemma OutcomeReports(m: DetectorMemory, h: seq<GameState>)
    requires HasBefore(h) && !Left(h)
    requires LastEndedAfter(m, Prev(h), Now(h)) == LastEnd(h, StretchStart(h), |h|)
    requires OutcomeDue(m, Prev(h), Now(h)) == Decides(h) && OutcomeTeam(m, Now(h)) == TeamNow(h)
    ensures Outcome(m, Prev(h), Now(h)) == One(RoundWon, h) + One(RoundLost, h)
  {
    if Decides(h) {
      DecidedParts(h);
    }
    DecisionOne(h);
    hide StretchStart, LastEnd, LastDecided, TeamNow, OutcomeTeam, LastEndedAfter, OutcomeDue, Decides, Past, One, Left;
  }

  lemma DecisionOne(h: seq<GameState>)
    requires HasBefore(h) && !Left(h)
    ensures !Decides(h) ==> One(RoundWon, h) == [] && One(RoundLost, h) == []
    ensures Decides(h) ==>
      && Now(h).roundWinner.Some? && TeamNow(h).Some?
      && var won := Now(h).roundWinner == TeamNow(h);
         var told := Make(if won then RoundWon else RoundLost, Now(h))
           .(value := LastEnd(h, StretchStart(h), |h|), before := TeamNow(h).value, after := Now(h).roundWinner.value);
         && One(RoundWon, h) == (if won then [told] else [])
         && One(RoundLost, h) == (if won then [] else [told])
  {
    hide StretchStart, LastEnd, LastDecided, TeamNow, Decides, Past, Left, Reports, Told;
    OutcomeDueTo(RoundWon, h);
    OutcomeDueTo(RoundLost, h);
    if Decides(h) {
      DecidedParts(h);
      OutcomeTold(RoundWon, h);
      OutcomeTold(RoundLost, h);
    }
  }

  lemma OutcomeDueTo(kind: EventKind, h: seq<GameState>)
    requires kind in {RoundWon, RoundLost} && HasBefore(h) && !Left(h)
    ensures Reports(kind, h) <==> Decides(h) && (kind == RoundWon <==> Now(h).roundWinner == TeamNow(h))
  {
    hide StretchStart, LastEnd, LastDecided, TeamNow, Decides, Past, Left, Ends, LastShown, LastTeam, LocalShown, Away;
  }

  lemma OutcomeTold(kind: EventKind, h: seq<GameState>)
    requires kind in {RoundWon, RoundLost} && Decides(h)
    ensures Now(h).roundWinner.Some? && TeamNow(h).Some?
    ensures Reports(kind, h) ==>
      Told(kind, h) == Make(kind, Now(h))
        .(value := LastEnd(h, StretchStart(h), |h|), before := TeamNow(h).value, after := Now(h).roundWinner.value)
  {
    DecidedParts(h);
    hide StretchStart, LastEnd, LastDecided, TeamNow, Decides, Past, Left, Ends, LastShown, LastTeam, LocalShown, Away, Reports;
  }

  lemma DecidedParts(h: seq<GameState>)
    requires Decides(h)
    ensures h != [] && Now(h).roundWinner.Some? && TeamNow(h).Some? && LastEnd(h, StretchStart(h), |h|).Some?
  {
  }

  lemma PhaseOnes(h: seq<GameState>)
    requires HasBefore(h) && !Left(h)
    ensures RoundPhases(Prev(h), Now(h)) ==
      One(FreezeStarted, h) + One(FreezeEnded, h) + One(RoundStarted, h) + One(HalftimeStarted, h) + One(HalftimeEnded, h)
    ensures When(GameOverStarted(Prev(h), Now(h)), GameOver, Now(h)) == One(GameOver, h)
  {
    var p, s := Prev(h), Now(h);
    hide One, When, Left;
    FreezeOnes(h);
    HalftimeOnes(h);
  }

  lemma FreezeOnes(h: seq<GameState>)
    requires HasBefore(h) && !Left(h)
    ensures
      var p, s := Prev(h), Now(h);
      && One(FreezeStarted, h) ==
           When(ChangedTo(p.roundPhase, s.roundPhase, "freezetime") && s.mapPhase != Some("gameover"), FreezeStarted, s)
      && One(FreezeEnded, h) == When(RoundStarts(p, s), FreezeEnded, s)
      && One(RoundStarted, h) == When(RoundStarts(p, s), RoundStarted, s)
  {
    hide StretchStart, LastShown, LastTeam, LastEnd, LastDecided, LocalShown, Away, Past;
  }

  lemma HalftimeOnes(h: seq<GameState>)
    requires HasBefore(h) && !Left(h)
    ensures
      var p, s := Prev(h), Now(h);
      && One(HalftimeStarted, h) == When(ChangedTo(p.mapPhase, s.mapPhase, "intermission"), HalftimeStarted, s)
      && One(HalftimeEnded, h) == When(p.mapPhase == Some("intermission") && s.mapPhase != Some("intermission"), HalftimeEnded, s)
      && One(GameOver, h) == When(GameOverStarted(p, s), GameOver, s)
  {
    hide StretchStart, LastShown, LastTeam, LastEnd, LastDecided, LocalShown, Away, Past;
  }

  lemma TeamOne(m: DetectorMemory, h: seq<GameState>)
    requires HasBefore(h) && !Left(h) && Recalls(m, h)
    ensures TeamChange(m, Now(h)) == One(TeamChanged, h)
  {
    hide StretchStart, LastShown, LastTeam, LastEnd, LastDecided, LocalShown, Away, Past;
  }

  lemma PhaseReports(m: DetectorMemory, h: seq<GameState>)
    requires HasBefore(h) && !Left(h) && Recalls(m, h)
    ensures PhaseChanges(m, Prev(h), Now(h)) == Listed(PHASE, h)
  {
    hide RoundPhases, TeamChange, When, One, Listed, Recalls, Left, GameOverStarted;
    PhaseOnes(h);
    TeamOne(m, h);
    var a, b := [FreezeStarted, FreezeEnded, RoundStarted], [HalftimeStarted, HalftimeEnded];
    assert PHASE == a + b + [TeamChanged, GameOver];
    ListedConcat(a, b, h);
    ListedConcat(a + b, [TeamChanged, GameOver], h);
    Listed3(FreezeStarted, FreezeEnded, RoundStarted, h);
    Listed2(HalftimeStarted, HalftimeEnded, h);
    Listed2(TeamChanged, GameOver, h);
  }

  lemma MiddleReports(m: DetectorMemory, h: seq<GameState>)
    requires HasBefore(h) && !Left(h) && Recalls(m, h)
    ensures Restoration(m, Now(h)) + Pairwise(Prev(h), Now(h)) == Listed(if Back(h) then RETURN else LOCAL, h)
  {
    hide Restoration, Pairwise, Recalls, Listed, Back, Left;
    ReturnReports(m, h);
    if Back(h) {
      NoPairs(h);
    } else {
      LocalReports(h);
    }
  }

  lemma NoPairs(h: seq<GameState>)
    requires HasBefore(h) && Back(h)
    ensures Pairwise(Prev(h), Now(h)) == []
  {
    BackNotBoth(h);
    hide Back, Health, Kills, Rise, Onset;
  }

  lemma AdvanceReports(m: DetectorMemory, h: seq<GameState>)
    requires HasBefore(h) && !Left(h) && Recalls(m, h)
    ensures Advance(m, Prev(h), Now(h), Entered(h)).1 == Report(h)
  {
    hide Opening, Restoration, Pairwise, BombChanges, RoundClose, PhaseChanges, Recalls, Listed, Back, LastEndedAfter,
         OutcomeAfter, Left, Entered, Remember, RestoredNow, LostNow, AcquiredNow;
    OpeningReports(m, h);
    MiddleReports(m, h);
    BombReports(h);
    RoundReports(m, h);
    PhaseReports(m, h);
    var middle := if Back(h) then RETURN else LOCAL;
    ListedConcat(OPENING, middle, h);
    ListedConcat(OPENING + middle, BOMB, h);
    ListedConcat(OPENING + middle + BOMB, ROUND, h);
    ListedConcat(OPENING + middle + BOMB + ROUND, PHASE, h);
    Sections(Opening(m, Entered(h), Now(h)), Restoration(m, Now(h)), Pairwise(Prev(h), Now(h)),
             BombChanges(Prev(h), Now(h)), RoundClose(m, Prev(h), Now(h)), PhaseChanges(m, Prev(h), Now(h)));
  }

  lemma Sections(a: seq<Event>, b: seq<Event>, c: seq<Event>, d: seq<Event>, e: seq<Event>, f: seq<Event>)
    ensures a + b + (c + d + e + f) == a + (b + c) + d + e + f
  {
  }

  // ----- The memory is a summary of the history -----

  lemma {:induction false} LastEndPrefix(h: seq<GameState>, s: GameState, k: nat, n: nat)
    requires n <= |h|
    ensures LastEnd(h + [s], k, n) == LastEnd(h, k, n)
  {
    if n > k && n > 1 {
      LastEndPrefix(h, s, k, n - 1);
    }
    hide Ends, EndedNumber;
  }

  lemma {:induction false} LastDecidedPrefix(h: seq<GameState>, s: GameState, k: nat, n: nat)
    requires n < |h|
    ensures LastDecided(h + [s], k, n) == LastDecided(h, k, n)
  {
    hide Decides;
    if n > k {
      LastDecidedPrefix(h, s, k, n - 1);
      assert (h + [s])[..n] == h[..n];
    }
  }

  lemma SameStretch(h: seq<GameState>, s: GameState)
    requires h != [] && !Left(h + [s]) && !Entered(h + [s])
    ensures StretchStart(h + [s]) == StretchStart(h) && Past(h + [s]) == h[StretchStart(h)..]
  {
    assert (h + [s])[..|h|] == h;
    var k := StretchStart(h);
    assert (h + [s])[k..|h|] == h[k..];
    hide StretchStart;
    StretchNext(h, s);
  }

  lemma StretchNext(h: seq<GameState>, s: GameState)
    requires h != [] && !Left(h + [s]) && !Entered(h + [s])
    ensures StretchStart(h + [s]) == StretchStart(h)
  {
    assert (h + [s])[..|h|] == h;
  }

  lemma DecidedNext(h: seq<GameState>, s: GameState)
    requires h != []
    ensures
      var k := StretchStart(h);
      LastDecided(h + [s], k, |h|) == if Decides(h) then LastEnd(h, k, |h|) else LastDecided(h, k, |h| - 1)
  {
    var k := StretchStart(h);
    assert (h + [s])[..|h|] == h;
    LastDecidedPrefix(h, s, k, |h| - 1);
    hide LastEnd;
    if |h| <= k {
      assert Left(h);
      assert !Decides(h);
    }
  }

  lemma RecallOn(m: DetectorMemory, h: seq<GameState>, s: GameState)
    requires h != [] && Remembers(m, h) && !Left(h + [s]) && !Entered(h + [s])
    ensures HasBefore(h + [s]) && Recalls(m, h + [s])
  {
    SameStretch(h, s);
    LastEndPrefix(h, s, StretchStart(h), |h|);
    DecidedNext(h, s);
    hide StretchStart, LastEnd, LastDecided, Decides, Past, LastShown, LastTeam, LocalShown, Away, Left, Entered;
  }

  lemma RecallEntered(h: seq<GameState>, s: GameState)
    requires h != [] && Entered(h + [s])
    ensures !Left(h + [s]) && Recalls(Wiped(Some(Now(h))), h + [s])
  {
    var k := h + [s];
    assert k[|h|..|h|] == [];
    assert Past(k) == [];
    hide Ends, Decides;
  }

  lemma StretchGrows(h: seq<GameState>)
    requires h != [] && !Left(h)
    ensures StretchStart(h) <= |h| && h[StretchStart(h)..] == (if StretchStart(h) == |h| then [] else Past(h) + [Now(h)])
  {
    hide StretchStart, Left;
    if StretchStart(h) < |h| {
      SliceLast(h, StretchStart(h));
    } else {
      assert h[|h|..] == [];
    }
  }

  lemma SliceLast(h: seq<GameState>, k: nat)
    requires k < |h|
    ensures h[k..] == h[k..|h| - 1] + [h[|h| - 1]]
  {
  }

  lemma LastSnoc(past: seq<GameState>, s: GameState)
    ensures forall q :: LastShown(q, past + [s]) == if Shown(q, s).Some? then Shown(q, s) else LastShown(q, past)
    ensures LastTeam(past + [s]) == if s.localPlayerValid && s.playerTeam.Some? then s.playerTeam else LastTeam(past)
  {
    assert (past + [s])[..|past|] == past;
    hide Shown;
  }

  lemma LocalSnoc(past: seq<GameState>, s: GameState)
    ensures LocalShown(past + [s]) == (LocalShown(past) || (s.localPlayerValid && s.mapName.Some?))
  {
    var all := past + [s];
    forall k | 0 <= k < |past| ensures all[k] == past[k] {
    }
    assert all[|past|] == s;
  }

  lemma AwaySnoc(past: seq<GameState>, s: GameState)
    ensures Away(past + [s]) == (!s.localPlayerValid && (Away(past) || (Other(s) && LocalShown(past))))
  {
    var all := past + [s];
    forall k | 0 <= k <= |past| ensures all[..k] == past[..k] {
    }
    forall k | 0 <= k < |past| ensures all[k] == past[k] {
    }
    assert all[|past|] == s && past[..|past|] == past;
    hide LocalShown, Other;
    if Away(past) && !s.localPlayerValid {
      var k :| 0 <= k < |past| && Other(past[k]) && LocalShown(past[..k])
        && forall j :: k < j < |past| ==> !past[j].localPlayerValid;
      assert Other(all[k]) && LocalShown(all[..k]);
    }
    if Other(s) && LocalShown(past) && !s.localPlayerValid {
      assert Other(all[|past|]) && LocalShown(all[..|past|]);
    }
    if Away(all) {
      var k :| 0 <= k < |all| && Other(all[k]) && LocalShown(all[..k])
        && forall j :: k < j < |all| ==> !all[j].localPlayerValid;
      OtherNotLocal(all[k]);
    }
  }

  lemma OtherNotLocal(s: GameState)
    ensures Other(s) ==> !s.localPlayerValid
  {
  }

  lemma FlagsNext(m: DetectorMemory, h: seq<GameState>)
    requires HasBefore(h) && !Left(h) && Recalls(m, h)
    ensures
      var s, m1 := Now(h), Advance(m, Prev(h), Now(h), Entered(h)).0;
      && m1.everAcquired == (LocalShown(Past(h)) || (s.localPlayerValid && s.mapName.Some?))
      && m1.lost == (!s.localPlayerValid && (Away(Past(h)) || (Other(s) && LocalShown(Past(h)))))
  {
    AwayFacts(Past(h));
    hide Opening, Restoration, Changes, LastEndedAfter, OutcomeAfter, StretchStart, LastEnd, LastDecided, LastShown, LastTeam,
         LocalShown, Away, Past, Left, Remember;
  }

  lemma ValuesNext(m: DetectorMemory, h: seq<GameState>)
    requires HasBefore(h) && !Left(h) && Recalls(m, h)
    ensures
      var s, m1, past := Now(h), Advance(m, Prev(h), Now(h), Entered(h)).0, Past(h);
      && m1.previous == Some(s)
      && m1.localHp == (if Shown(HealthQ, s).Some? then Shown(HealthQ, s) else LastShown(HealthQ, past))
      && m1.localAssists == (if Shown(AssistsQ, s).Some? then Shown(AssistsQ, s) else LastShown(AssistsQ, past))
      && m1.localMvps == (if Shown(MvpsQ, s).Some? then Shown(MvpsQ, s) else LastShown(MvpsQ, past))
      && m1.localTeam == (if s.localPlayerValid && s.playerTeam.Some? then s.playerTeam else LastTeam(past))
      && m1.lastEndedRound == LastEndedAfter(m, Prev(h), s) && m1.lastOutcomeRound == OutcomeAfter(m, Prev(h), s)
  {
    hide Opening, Restoration, Changes, LastEndedAfter, OutcomeAfter, StretchStart, LastEnd, LastDecided, LastShown, LastTeam,
         LocalShown, Away, Past, Left, AcquiredNow, LostNow, RestoredNow;
  }

  lemma RememberNext(m: DetectorMemory, h: seq<GameState>)
    requires HasBefore(h) && !Left(h) && Recalls(m, h)
    ensures Remembers(Advance(m, Prev(h), Now(h), Entered(h)).0, h)
  {
    StartBefore(h);
    StretchGrows(h);
    LastSnoc(Past(h), Now(h));
    LocalSnoc(Past(h), Now(h));
    AwaySnoc(Past(h), Now(h));
    FlagsNext(m, h);
    ValuesNext(m, h);
    RoundMemory(m, h);
    DueDecides(m, h);
    hide Advance, Recalls, LastEndedAfter, OutcomeAfter, StretchStart, LastEnd, LastDecided, LastShown, LastTeam, LocalShown,
         Away, Past, Left, Decides, Shown, Other;
  }

  lemma RememberLeft(h: seq<GameState>)
    requires Left(h)
    ensures Remembers(Wiped(Some(Now(h))), h) && [Make(MatchLeft, Now(h))] == Report(h)
  {
    assert h[|h|..] == [];
    Listed1(MatchLeft, h);
    hide Ends, LastEnd;
  }

  // ----- The theorem -----

  lemma FirstReport(s: GameState)
    requires s.payloadValid
    ensures Detect(BLANK, s).1 == Report([s]) && Remembers(Detect(BLANK, s).0, [s])
  {
    FirstMemory(s);
    FirstEvents(s);
  }

  /** What a fresh detector makes of its first usable snapshot. */
  lemma FirstDetected(s: GameState)
    requires s.payloadValid
    ensures
      var (m, events) := Detect(BLANK, s);
      && m.previous == Some(s)
      && m.localHp == Shown(HealthQ, s) && m.localAssists == Shown(AssistsQ, s) && m.localMvps == Shown(MvpsQ, s)
      && m.localTeam == (if s.localPlayerValid then s.playerTeam else None)
      && m.everAcquired == (s.localPlayerValid && s.mapName.Some?) && !m.lost
      && m.lastEndedRound.None? && m.lastOutcomeRound.None?
      && events == When(s.mapName.Some?, MatchEntered, s) + When(s.mapName.Some? && s.localPlayerValid, LocalPlayerAcquired, s)
  {
    hide Advance, Leaves, Enters, Entry, When;
  }

  lemma FirstMemory(s: GameState)
    requires s.payloadValid
    ensures Remembers(Detect(BLANK, s).0, [s])
  {
    hide Detect, StretchStart, LocalShown, Away, Decides, Other, LastShown, LastTeam, LastEnd, LastDecided, Shown, Ends, EndedNumber, When;
    var h := [s];
    FirstDetected(s);
    FirstStretch(s);
    assert h[0..] == h && [] + [s] == h;
    LastSnoc([], s);
    LocalSnoc([], s);
    AwaySnoc([], s);
    FirstUndecided(s);
  }

  lemma FirstStretch(s: GameState)
    ensures StretchStart([s]) == 0 && LastEnd([s], 0, 1).None?
    ensures !LocalShown([]) && !Away([]) && LastTeam([]).None? && forall q :: LastShown(q, []).None?
  {
    assert [s][..0] == [];
    hide Ends, Decides, LastDecided;
  }

  lemma FirstUndecided(s: GameState)
    ensures !Decides([s]) && LastDecided([s], 0, 0).None? && !Left([s])
  {
  }

  lemma FirstEvents(s: GameState)
    requires s.payloadValid
    ensures Detect(BLANK, s).1 == Report([s])
  {
    var h := [s];
    forall k | k in LOCAL + BOMB + ROUND + PHASE ensures !Reports(k, h) {
      NotFirst(k, s);
    }
    FirstOpening(s);
    FirstUndecided(s);
    assert !Back(h) by { hide Past, Away, Left; }
    hide Reports, Past, LocalShown, Away, StretchStart, Back, Listed, Detect, Left;
    NoneListed(LOCAL + BOMB + ROUND + PHASE, h);
    assert OPENING + LOCAL + BOMB + ROUND + PHASE == OPENING + (LOCAL + BOMB + ROUND + PHASE);
    ListedConcat(OPENING, LOCAL + BOMB + ROUND + PHASE, h);
  }

  lemma NotFirst(kind: EventKind, s: GameState)
    requires kind in LOCAL + BOMB + ROUND + PHASE
    ensures !Reports(kind, [s])
  {
    FirstUndecided(s);
    hide StretchStart, LastShown, LastTeam, LastEnd, LastDecided, LocalShown, Away, Past, Decides, Left;
  }

  lemma FirstOpening(s: GameState)
    requires s.payloadValid
    ensures Detect(BLANK, s).1 == Listed(OPENING, [s])
  {
    hide Detect, StretchStart, LastShown, LastTeam, LastEnd, LastDecided, LocalShown, Away, Listed, Decides, Shown, Ends;
    var h := [s];
    FirstDetected(s);
    FirstStretch(s);
    FirstUndecided(s);
    Listed3(MatchEntered, LocalPlayerAcquired, LocalPlayerLost, h);
    assert Past(h) == [];
    hide Past, Left;
  }

  lemma DetectReports(m: DetectorMemory, h: seq<GameState>, s: GameState)
    requires h != [] && Remembers(m, h) && s.payloadValid
    ensures Detect(m, s).1 == Report(h + [s]) && Remembers(Detect(m, s).0, h + [s])
  {
    var k := h + [s];
    assert Prev(k) == Now(h) && Now(k) == s && HasBefore(k);
    assert m.previous == Some(Prev(k));
    hide Remembers, Recalls, Report, Advance, StretchStart;
    if Left(k) {
      RememberLeft(k);
    } else if Entered(k) {
      RecallEntered(h, s);
      AdvanceReports(Wiped(Some(Now(h))), k);
      RememberNext(Wiped(Some(Now(h))), k);
    } else {
      RecallOn(m, h, s);
      AdvanceReports(m, k);
      RememberNext(m, k);
    }
  }

  predicate AllUsable(h: seq<GameState>) { forall k :: 0 <= k < |h| ==> h[k].payloadValid }

  /** After every history of usable snapshots the memory is its summary and the batch is the report. */
  lemma {:induction false} BatchExactly(h: seq<GameState>)
    requires h != [] && AllUsable(h)
    ensures Detect(After(BLANK, h[..|h| - 1]), Now(h)).1 == Report(h)
    ensures Remembers(After(BLANK, h), h)
    decreases |h|
  {
    hide Detect, Remembers, Report, BLANK;
    var init, s := h[..|h| - 1], Now(h);
    assert h == init + [s];
    if init == [] {
      assert h == [s];
      FirstReport(s);
    } else {
      BatchExactly(init);
      DetectReports(After(BLANK, init), init, s);
    }
  }

  /** Snapshots of unusable payloads count for nothing. */
  function Usable(ss: seq<GameState>): (r: seq<GameState>)
    ensures AllUsable(r)
  {
    if ss == [] then []
    else
      var last := ss[|ss| - 1];
      Usable(ss[..|ss| - 1]) + if last.payloadValid then [last] else []
  }

  function Reported(h: seq<GameState>): seq<Event> {
    if h == [] then [] else Reported(h[..|h| - 1]) + Report(h)
  }

  /** Over every stream, the trace is what the usable snapshots report, batch by batch: which
      kinds, in which order, and what each event says. */
  lemma {:induction false} TraceExactly(ss: seq<GameState>)
    ensures After(BLANK, ss) == After(BLANK, Usable(ss))
    ensures Trace(BLANK, ss) == Reported(Usable(ss))
  {
    hide BLANK, Report, Remembers;
    if ss != [] {
      var init, s := ss[..|ss| - 1], ss[|ss| - 1];
      TraceExactly(init);
      if s.payloadValid {
        hide Detect;
        var h := Usable(init) + [s];
        assert Usable(ss) == h && h[..|h| - 1] == Usable(init);
        BatchExactly(h);
      } else {
        hide Advance;
        assert Usable(ss) == Usable(init);
        assert Detect(After(BLANK, init), s) == (After(BLANK, init), []);
      }
    }
  }

  // ----- Event by event -----

  lemma {:induction false} ListedExactly(kinds: seq<EventKind>, h: seq<GameState>, e: Event)
    requires h != []
    ensures e in Listed(kinds, h) <==> e.kind in kinds && Reports(e.kind, h) && e == Told(e.kind, h)
    decreases |kinds|
  {
    if kinds != [] {
      var init, last := kinds[..|kinds| - 1], kinds[|kinds| - 1];
      ListedExactly(init, h, e);
      assert kinds == init + [last];
      if Reports(last, h) {
        ToldKind(last, h);
      }
      hide Reports, Told;
    }
  }

  lemma ToldKind(kind: EventKind, h: seq<GameState>)
    requires h != [] && Reports(kind, h)
    ensures Told(kind, h).kind == kind
  {
    hide Reports, StretchStart, LastShown, LastTeam, LastEnd, LastDecided, TeamNow, Past, Prev, Now, BothLocal, EndedNumber, HasBefore;
  }

  /** Whatever is reported is on the agenda. */
  lemma OnAgenda(kind: EventKind, h: seq<GameState>)
    requires h != [] && Reports(kind, h)
    ensures kind in Agenda(h)
  {
    hide Back, BothLocal, Decides, Past, Left, LastShown, StretchStart, Ends, LastTeam, LocalShown, Away, Entered;
    if Back(h) {
      BackNotBoth(h);
      if kind in LOCAL {
        BackOnly(kind, h);
      }
    }
  }

  lemma BackOnly(kind: EventKind, h: seq<GameState>)
    requires h != [] && Reports(kind, h) && Back(h) && !BothLocal(h) && kind in LOCAL
    ensures kind in RETURN
  {
    hide BothLocal, Decides, Past, Left;
  }

  /** An event is in the batch if and only if its kind is reported and it says what is to be told. */
  lemma EventsExactly(h: seq<GameState>, e: Event)
    requires h != [] && AllUsable(h)
    ensures e in Detect(After(BLANK, h[..|h| - 1]), Now(h)).1 <==> Reports(e.kind, h) && e == Told(e.kind, h)
  {
    BatchExactly(h);
    ListedExactly(Agenda(h), h, e);
    if Reports(e.kind, h) {
      OnAgenda(e.kind, h);
    }
    hide Detect, Reports, Told, Agenda, Listed, BLANK, Remembers;
  }
}
