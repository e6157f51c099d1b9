/** From a GSI body to a normalized game state. */
module GameStates {
  import opened Telemetry
  import opened Json
  import opened JsonGrammar

  function FindPath(root: Json, path: seq<string>): Option<Json> {
    if path == [] then Some(root)
    else if root.Obj? && path[0] in root.values then FindPath(root.values[path[0]], path[1..])
    else None
  }

  function ReadString(root: Json, path: seq<string>): Option<string> {
    match FindPath(root, path)
    case Some(Str(s)) => Some(s)
    case _ => None
  }

  function ReadI64(root: Json, path: seq<string>): Option<int> {
    match FindPath(root, path)
    case Some(Int(i)) => Some(i)
    case _ => None
  }

  /** The narrowing conversion from `int64_t` to `int`: the low 32 bits, as two's complement. */
  function Narrow(i: int): int {
    (i - INT_MIN) % 0x1_0000_0000 + INT_MIN
  }

  function ReadInt(root: Json, path: seq<string>): Option<int> {
    match ReadI64(root, path)
    case Some(i) => Some(Narrow(i))
    case None => None
  }

  /** Narrowing keeps what fits, and otherwise keeps the value modulo 2^32. */
  lemma NarrowFacts(i: int)
    ensures INT_MIN <= Narrow(i) <= INT_MAX
    ensures Narrow(i) == i <==> INT_MIN <= i <= INT_MAX
    ensures (Narrow(i) - i) % 0x1_0000_0000 == 0
  {
  }

  /** A default-constructed state: what an unusable body yields. */
  function Unusable(sequence: nat, us: nat): GameState {
    GameState(sequence, us, false, None, None, None, None, None, None, None, None, None, false,
              None, None, None, None, None, None, None, None, None, NO_CARRIED)
  }

  function ReadCarried(root: Json, local: bool): Carried {
    var always := NO_CARRIED.(
      providerTimestamp := ReadI64(root, ["provider", "timestamp"]),
      ctScore := ReadInt(root, ["map", "team_ct", "score"]),
      tScore := ReadInt(root, ["map", "team_t", "score"]),
      activity := ReadString(root, ["player", "activity"]));
    if !local then always
    else always.(
      armor := ReadInt(root, ["player", "state", "armor"]),
      money := ReadInt(root, ["player", "state", "money"]),
      equipmentValue := ReadInt(root, ["player", "state", "equip_value"]),
      kills := ReadInt(root, ["player", "match_stats", "kills"]),
      deaths := ReadInt(root, ["player", "match_stats", "deaths"]),
      score := ReadInt(root, ["player", "match_stats", "score"]))
  }

  /** The map, the round and the two identities. */
  function ReadCommon(root: Json, sequence: nat, us: nat): GameState {
    var provider, observed := ReadString(root, ["provider", "steamid"]), ReadString(root, ["player", "steamid"]);
    var local := provider.Some? && observed.Some? && provider.value == observed.value;
    Unusable(sequence, us).(
      payloadValid := true,
      providerId := provider,
      mapName := ReadString(root, ["map", "name"]),
      mapMode := ReadString(root, ["map", "mode"]),
      mapPhase := ReadString(root, ["map", "phase"]),
      mapRound := ReadInt(root, ["map", "round"]),
      roundPhase := ReadString(root, ["round", "phase"]),
      roundWinner := ReadString(root, ["round", "win_team"]),
      bombState := ReadString(root, ["round", "bomb"]),
      observedId := observed,
      localPlayerValid := local,
      playerTeam := ReadString(root, ["player", "team"]),
      carried := ReadCarried(root, local))
  }

  function NormalizeValue(root: Json, sequence: nat, us: nat): GameState {
    var common := ReadCommon(root, sequence, us);
    if !common.localPlayerValid then common
    else common.(
      health := ReadInt(root, ["player", "state", "health"]),
      flashed := ReadInt(root, ["player", "state", "flashed"]),
      smoked := ReadInt(root, ["player", "state", "smoked"]),
      burning := ReadInt(root, ["player", "state", "burning"]),
      roundKills := ReadInt(root, ["player", "state", "round_kills"]),
      roundHeadshotKills := ReadInt(root, ["player", "state", "round_killhs"]),
      assists := ReadInt(root, ["player", "match_stats", "assists"]),
      mvps := ReadInt(root, ["player", "match_stats", "mvps"]))
  }

  function NormalizeGsi(body: string, sequence: nat, us: nat): GameState {
    var root := Parse(body);
    if root.None? || !root.value.Obj? then Unusable(sequence, us) else NormalizeValue(root.value, sequence, us)
  }

  // ----- The identity gate -----

  /** Counters get through only when the observed player is the provider. */
  predicate Gated(s: GameState) {
    && (s.localPlayerValid ==> s.providerId.Some? && s.providerId == s.observedId)
    && (!s.localPlayerValid ==>
          && s.health.None? && s.flashed.None? && s.smoked.None? && s.burning.None?
          && s.roundKills.None? && s.roundHeadshotKills.None? && s.assists.None? && s.mvps.None?)
    && (s.localPlayerValid <==> s.providerId.Some? && s.providerId == s.observedId)
  }

  lemma NormalizedIsGated(body: string, sequence: nat, us: nat)
    ensures Gated(NormalizeGsi(body, sequence, us))
    ensures NormalizeGsi(body, sequence, us).sequence == sequence && NormalizeGsi(body, sequence, us).relativeUs == us
  {
    hide FindPath, ReadString, ReadInt, ReadI64, Parse;
  }

  /** Formatting is irrelevant: texts of trees with the same meaning normalize alike. */
  lemma FormattingIrrelevant(a: string, b: string, v: Json, sequence: nat, us: nat)
    requires exists before, d, after :: Denotes(a, before, d, after, v)
    requires exists before, d, after :: Denotes(b, before, d, after, v)
    ensures NormalizeGsi(a, sequence, us) == NormalizeGsi(b, sequence, us)
  {
    ParseExactly(a, v);
    ParseExactly(b, v);
    hide NormalizeValue, Denotes, Parse;
  }
}
