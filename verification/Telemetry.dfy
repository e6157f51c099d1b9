/** The values that flow through the telemetry spine: normalized GSI snapshots,
    supplementary team counts and emitted events. Strings are byte strings: a
    byte is a `char` below 0x100. A `uint64_t` is a `nat`; the storage layer,
    the only one whose behaviour depends on the width, states the bound. */
module Telemetry {

  datatype Option<+T> = None | Some(value: T)

  /** The range of the source's `int`. */
  const INT_MIN := -0x8000_0000
  const INT_MAX := 0x7FFF_FFFF

  predicate IntFits(o: Option<int>) { o.Some? ==> INT_MIN <= o.value <= INT_MAX }

  /** Fields that the normalizer carries but no later stage reads. */
  datatype Carried = Carried(
    providerTimestamp: Option<int>,
    ctScore: Option<int>,
    tScore: Option<int>,
    activity: Option<string>,
    armor: Option<int>,
    money: Option<int>,
    equipmentValue: Option<int>,
    kills: Option<int>,
    deaths: Option<int>,
    score: Option<int>)

  const NO_CARRIED := Carried(None, None, None, None, None, None, None, None, None, None)

  datatype GameState = GameState(
    sequence: nat,
    relativeUs: nat,
    payloadValid: bool,
    providerId: Option<string>,
    mapName: Option<string>,
    mapMode: Option<string>,
    mapPhase: Option<string>,
    mapRound: Option<int>,
    roundPhase: Option<string>,
    roundWinner: Option<string>,
    bombState: Option<string>,
    observedId: Option<string>,
    localPlayerValid: bool,
    playerTeam: Option<string>,
    health: Option<int>,
    flashed: Option<int>,
    smoked: Option<int>,
    burning: Option<int>,
    roundKills: Option<int>,
    roundHeadshotKills: Option<int>,
    assists: Option<int>,
    mvps: Option<int>,
    carried: Carried)

  datatype EventKind =
    | MatchEntered | MatchLeft
    | FreezeStarted | FreezeEnded
    | RoundStarted | RoundEnded | RoundWon | RoundLost
    | TeamChanged
    | LocalPlayerAcquired | LocalPlayerLost | LocalPlayerRestored
    | PlayerRespawned | PlayerDamaged | PlayerDied
    | PlayerKill | PlayerHeadshotKill | PlayerAssist
    | PlayerFlashed | PlayerSmoked | PlayerBurning
    | AceCandidate | Ace
    | ClutchStarted | ClutchUpdated | ClutchEnded
    | MvpGained
    | BombPlanted | BombDefused | BombExploded | BombStateCleared
    | HalftimeStarted | HalftimeEnded
    | GameOver

  datatype Evidence = Deterministic | ModeAssumption | Heuristic

  datatype Source = Gsi | ModeRules | SupplementaryState

  datatype Event = Event(
    kind: EventKind,
    evidence: Evidence,
    sources: set<Source>,
    sequence: nat,
    relativeUs: nat,
    amount: Option<int>,
    value: Option<int>,
    before: string,  // the source's field `from`
    after: string)   // the source's field `to`

  /** `has_event`: does a batch hold an event of this kind? */
  predicate Has(events: seq<Event>, kind: EventKind) {
    exists e :: e in events && e.kind == kind
  }

  lemma HasConcat(a: seq<Event>, b: seq<Event>, kind: EventKind)
    ensures Has(a + b, kind) <==> Has(a, kind) || Has(b, kind)
  {
  }

  datatype SourceKind = Unknown | Synthetic | Replay | PanoramaVisibleState

  datatype TeamCounts = TeamCounts(
    ctAlive: Option<int>,
    tAlive: Option<int>,
    ctTotal: Option<int>,
    tTotal: Option<int>)

  datatype Snapshot = Snapshot(
    sequence: nat,
    observedTick: nat,
    relativeUs: nat,
    rosterRevision: Option<nat>,
    source: SourceKind,
    teams: TeamCounts)
}
