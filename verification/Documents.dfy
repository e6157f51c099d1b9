/** Every state that the normalizer can produce is the normal form of some body: writing a
    state out as a document and normalizing it again gives the state back. */
module Documents {
  import opened Telemetry
  import opened Json
  import opened JsonGrammar
  import opened JsonPrinting
  import opened GameStates

  function Put(values: map<string, Json>, key: string, v: Option<Json>): map<string, Json> {
    if v.Some? then values[key := v.value] else values
  }

  function Get(values: map<string, Json>, key: string): Option<Json> {
    if key in values then Some(values[key]) else None
  }

  function Text(o: Option<string>): Option<Json> { if o.Some? then Some(Str(o.value)) else None }

  function Number(o: Option<int>): Option<Json> { if o.Some? then Some(Int(o.value)) else None }

  // ----- The document of a state -----

  function ProviderSection(s: GameState): map<string, Json> {
    Put(Put(map[], "steamid", Text(s.providerId)), "timestamp", Number(s.carried.providerTimestamp))
  }

  function ScoreSection(score: Option<int>): map<string, Json> { Put(map[], "score", Number(score)) }

  function MapSection(s: GameState): map<string, Json> {
    Put(Put(Put(Put(map["team_ct" := Obj(ScoreSection(s.carried.ctScore)), "team_t" := Obj(ScoreSection(s.carried.tScore))],
      "name", Text(s.mapName)), "mode", Text(s.mapMode)), "phase", Text(s.mapPhase)), "round", Number(s.mapRound))
  }

  function RoundSection(s: GameState): map<string, Json> {
    Put(Put(Put(map[], "phase", Text(s.roundPhase)), "win_team", Text(s.roundWinner)), "bomb", Text(s.bombState))
  }

  function VitalsSection(s: GameState): map<string, Json> {
    Put(Put(Put(Put(map[], "health", Number(s.health)), "armor", Number(s.carried.armor)), "money", Number(s.carried.money)),
        "equip_value", Number(s.carried.equipmentValue))
  }

  function StateSection(s: GameState): map<string, Json> {
    Put(Put(Put(Put(Put(VitalsSection(s), "flashed", Number(s.flashed)), "smoked", Number(s.smoked)),
      "burning", Number(s.burning)), "round_kills", Number(s.roundKills)), "round_killhs", Number(s.roundHeadshotKills))
  }

  function StatsSection(s: GameState): map<string, Json> {
    Put(Put(Put(Put(Put(map[], "kills", Number(s.carried.kills)), "assists", Number(s.assists)),
      "deaths", Number(s.carried.deaths)), "mvps", Number(s.mvps)), "score", Number(s.carried.score))
  }

  function PlayerSection(s: GameState): map<string, Json> {
    Put(Put(Put(map["state" := Obj(StateSection(s)), "match_stats" := Obj(StatsSection(s))],
      "steamid", Text(s.observedId)), "team", Text(s.playerTeam)), "activity", Text(s.carried.activity))
  }

  function Document(s: GameState): (d: Json)
    ensures d.Obj?
  {
    Obj(map["provider" := Obj(ProviderSection(s)), "map" := Obj(MapSection(s)),
            "round" := Obj(RoundSection(s)), "player" := Obj(PlayerSection(s))])
  }

  // ----- Reading it back -----

  lemma Path2(m: map<string, Json>, a: string, b: string)
    requires a in m && m[a].Obj?
    ensures FindPath(Obj(m), [a, b]) == Get(m[a].values, b)
  {
    assert [a, b][1..] == [b] && [b][1..] == [];
    assert FindPath(Obj(m), [a, b]) == FindPath(m[a], [b]);
    var v := m[a].values;
    assert FindPath(Obj(v), [b]) == if b in v then FindPath(v[b], []) else None;
  }

  lemma Path3(m: map<string, Json>, a: string, b: string, c: string)
    requires a in m && m[a].Obj? && b in m[a].values && m[a].values[b].Obj?
    ensures FindPath(Obj(m), [a, b, c]) == Get(m[a].values[b].values, c)
  {
    assert [a, b, c][1..] == [b, c];
    assert FindPath(Obj(m), [a, b, c]) == FindPath(m[a], [b, c]);
    Path2(m[a].values, b, c);
  }

  lemma ReadsText(root: Json, path: seq<string>, o: Option<string>)
    requires FindPath(root, path) == Text(o)
    ensures ReadString(root, path) == o
  {
    hide FindPath;
  }

  lemma ReadsNumber(root: Json, path: seq<string>, o: Option<int>)
    requires FindPath(root, path) == Number(o)
    ensures ReadI64(root, path) == o
    ensures IntFits(o) ==> ReadInt(root, path) == o
  {
    hide FindPath;
    if o.Some? {
      NarrowFacts(o.value);
    }
    hide Narrow;
  }

  lemma ProviderGets(s: GameState)
    ensures Get(ProviderSection(s), "steamid") == Text(s.providerId)
    ensures Get(ProviderSection(s), "timestamp") == Number(s.carried.providerTimestamp)
  {
  }

  lemma MapGets(s: GameState)
    ensures
      var m := MapSection(s);
      && Get(m, "name") == Text(s.mapName) && Get(m, "mode") == Text(s.mapMode) && Get(m, "phase") == Text(s.mapPhase)
      && Get(m, "round") == Number(s.mapRound)
      && "team_ct" in m && m["team_ct"] == Obj(ScoreSection(s.carried.ctScore))
      && "team_t" in m && m["team_t"] == Obj(ScoreSection(s.carried.tScore))
  {
    hide Text, Number, ScoreSection;
    assert |"team_ct"| == 7 && |"team_t"| == 6 && |"name"| == 4 && |"phase"| == 5;
    assert "name"[0] == 'n' && "mode"[0] == 'm' && "phase"[0] == 'p' && "round"[0] == 'r';
  }

  lemma RoundGets(s: GameState)
    ensures
      var m := RoundSection(s);
      Get(m, "phase") == Text(s.roundPhase) && Get(m, "win_team") == Text(s.roundWinner) && Get(m, "bomb") == Text(s.bombState)
  {
    hide Text;
  }

  lemma VitalsGet(s: GameState)
    ensures
      var m := VitalsSection(s);
      && Get(m, "health") == Number(s.health) && Get(m, "armor") == Number(s.carried.armor)
      && Get(m, "money") == Number(s.carried.money) && Get(m, "equip_value") == Number(s.carried.equipmentValue)
    ensures
      var m := VitalsSection(s);
      "flashed" !in m && "smoked" !in m && "burning" !in m && "round_kills" !in m && "round_killhs" !in m
  {
    hide Number;
    assert "health"[0] == 'h' && "armor"[0] == 'a' && "money"[0] == 'm' && "equip_value"[0] == 'e';
    assert "flashed"[0] == 'f' && "smoked"[0] == 's' && "burning"[0] == 'b' && "round_kills"[0] == 'r' && "round_killhs"[0] == 'r';
  }

  lemma StateGets(s: GameState)
    ensures
      var m := StateSection(s);
      && Get(m, "health") == Number(s.health) && Get(m, "armor") == Number(s.carried.armor)
      && Get(m, "money") == Number(s.carried.money) && Get(m, "equip_value") == Number(s.carried.equipmentValue)
      && Get(m, "flashed") == Number(s.flashed) && Get(m, "smoked") == Number(s.smoked)
      && Get(m, "burning") == Number(s.burning) && Get(m, "round_kills") == Number(s.roundKills)
      && Get(m, "round_killhs") == Number(s.roundHeadshotKills)
  {
    VitalsGet(s);
    hide Number, VitalsSection;
    assert "health"[0] == 'h' && "armor"[0] == 'a' && "money"[0] == 'm' && "equip_value"[0] == 'e';
    assert "flashed"[0] == 'f' && "smoked"[0] == 's' && "burning"[0] == 'b';
    assert "round_kills"[0] == "round_killhs"[0] == 'r' && |"round_kills"| == 11 && |"round_killhs"| == 12;
  }

  lemma StatsGet(s: GameState)
    ensures
      var m := StatsSection(s);
      && Get(m, "kills") == Number(s.carried.kills) && Get(m, "assists") == Number(s.assists)
      && Get(m, "deaths") == Number(s.carried.deaths) && Get(m, "mvps") == Number(s.mvps)
      && Get(m, "score") == Number(s.carried.score)
  {
    hide Number;
    assert "kills"[0] == 'k' && "assists"[0] == 'a' && "deaths"[0] == 'd' && "mvps"[0] == 'm' && "score"[0] == 's';
  }

  lemma PlayerGets(s: GameState)
    ensures
      var m := PlayerSection(s);
      && Get(m, "steamid") == Text(s.observedId) && Get(m, "team") == Text(s.playerTeam)
      && Get(m, "activity") == Text(s.carried.activity)
      && "state" in m && m["state"] == Obj(StateSection(s))
      && "match_stats" in m && m["match_stats"] == Obj(StatsSection(s))
  {
    hide Text, StateSection, StatsSection;
    assert |"state"| == 5 && |"match_stats"| == 11 && |"steamid"| == 7 && |"team"| == 4 && |"activity"| == 8;
  }

  lemma Sections(s: GameState)
    ensures
      var m := Document(s).values;
      && "provider" in m && m["provider"] == Obj(ProviderSection(s)) && "map" in m && m["map"] == Obj(MapSection(s))
      && "round" in m && m["round"] == Obj(RoundSection(s)) && "player" in m && m["player"] == Obj(PlayerSection(s))
  {
    assert |"provider"| == 8 && |"map"| == 3 && |"round"| == 5 && |"player"| == 6;
    hide ProviderSection, MapSection, RoundSection, PlayerSection;
  }

  // ----- The states that bodies normalize to -----

  /** Numbers of the source's width; no counters without the local player. */
  predicate Normal(s: GameState) {
    && s.payloadValid && Gated(s)
    && IntFits(s.mapRound) && IntFits(s.carried.ctScore) && IntFits(s.carried.tScore)
    && IntFits(s.health) && IntFits(s.flashed) && IntFits(s.smoked) && IntFits(s.burning) && IntFits(s.roundKills)
    && IntFits(s.roundHeadshotKills) && IntFits(s.assists) && IntFits(s.mvps)
    && IntFits(s.carried.armor) && IntFits(s.carried.money) && IntFits(s.carried.equipmentValue)
    && IntFits(s.carried.kills) && IntFits(s.carried.deaths) && IntFits(s.carried.score)
    && (s.carried.providerTimestamp.Some? ==> INT64_MIN <= s.carried.providerTimestamp.value <= INT64_MAX)
    && (!s.localPlayerValid ==>
          s.carried.armor.None? && s.carried.money.None? && s.carried.equipmentValue.None?
          && s.carried.kills.None? && s.carried.deaths.None? && s.carried.score.None?)
  }

  lemma CommonReads(s: GameState)
    requires Normal(s)
    ensures
      var d := Document(s);
      && ReadString(d, ["provider", "steamid"]) == s.providerId
      && ReadI64(d, ["provider", "timestamp"]) == s.carried.providerTimestamp
      && ReadString(d, ["map", "name"]) == s.mapName && ReadString(d, ["map", "mode"]) == s.mapMode
      && ReadString(d, ["map", "phase"]) == s.mapPhase && ReadInt(d, ["map", "round"]) == s.mapRound
      && ReadString(d, ["round", "phase"]) == s.roundPhase && ReadString(d, ["round", "win_team"]) == s.roundWinner
      && ReadString(d, ["round", "bomb"]) == s.bombState
  {
    hide FindPath, Get, Put, Text, Number, ReadString, ReadInt, ReadI64, Document, ProviderSection, MapSection, RoundSection,
         PlayerSection, Gated, IntFits;
    var m := Document(s).values;
    Sections(s);
    ProviderGets(s);
    MapGets(s);
    RoundGets(s);
    Path2(m, "provider", "steamid");
    ReadsText(Document(s), ["provider", "steamid"], s.providerId);
    Path2(m, "provider", "timestamp");
    ReadsNumber(Document(s), ["provider", "timestamp"], s.carried.providerTimestamp);
    Path2(m, "map", "name");
    ReadsText(Document(s), ["map", "name"], s.mapName);
    Path2(m, "map", "mode");
    ReadsText(Document(s), ["map", "mode"], s.mapMode);
    Path2(m, "map", "phase");
    ReadsText(Document(s), ["map", "phase"], s.mapPhase);
    Path2(m, "map", "round");
    ReadsNumber(Document(s), ["map", "round"], s.mapRound);
    Path2(m, "round", "phase");
    ReadsText(Document(s), ["round", "phase"], s.roundPhase);
    Path2(m, "round", "win_team");
    ReadsText(Document(s), ["round", "win_team"], s.roundWinner);
    Path2(m, "round", "bomb");
    ReadsText(Document(s), ["round", "bomb"], s.bombState);
  }

  lemma PlayerReads(s: GameState)
    ensures
      var d := Document(s);
      && ReadString(d, ["player", "steamid"]) == s.observedId && ReadString(d, ["player", "team"]) == s.playerTeam
      && ReadString(d, ["player", "activity"]) == s.carried.activity
  {
    hide FindPath, Get, Put, Text, Number, ReadString, ReadInt, ReadI64, Document, ProviderSection, MapSection, RoundSection,
         PlayerSection;
    var m := Document(s).values;
    Sections(s);
    PlayerGets(s);
    Path2(m, "player", "steamid");
    ReadsText(Document(s), ["player", "steamid"], s.observedId);
    Path2(m, "player", "team");
    ReadsText(Document(s), ["player", "team"], s.playerTeam);
    Path2(m, "player", "activity");
    ReadsText(Document(s), ["player", "activity"], s.carried.activity);
  }

  /** One number three levels down. */
  lemma DeepNumber(s: GameState, a: string, b: string, c: string, o: Option<int>)
    requires IntFits(o)
    requires
      var m := Document(s).values;
      && a in m && m[a].Obj? && b in m[a].values && m[a].values[b].Obj? && Get(m[a].values[b].values, c) == Number(o)
    ensures ReadInt(Document(s), [a, b, c]) == o
  {
    hide FindPath, Get, Number, ReadInt, ReadI64, Document, IntFits;
    assert Document(s) == Obj(Document(s).values);
    Path3(Document(s).values, a, b, c);
    ReadsNumber(Document(s), [a, b, c], o);
  }

  lemma ScoreReads(s: GameState)
    requires Normal(s)
    ensures ReadInt(Document(s), ["map", "team_ct", "score"]) == s.carried.ctScore
    ensures ReadInt(Document(s), ["map", "team_t", "score"]) == s.carried.tScore
  {
    Sections(s);
    MapGets(s);
    assert Get(ScoreSection(s.carried.ctScore), "score") == Number(s.carried.ctScore);
    assert Get(ScoreSection(s.carried.tScore), "score") == Number(s.carried.tScore);
    hide FindPath, Get, Put, Text, Number, ReadInt, ReadI64, Document, ProviderSection, MapSection, RoundSection,
         PlayerSection, ScoreSection, Gated, IntFits;
    DeepNumber(s, "map", "team_ct", "score", s.carried.ctScore);
    DeepNumber(s, "map", "team_t", "score", s.carried.tScore);
  }

  lemma StateReads(s: GameState)
    requires Normal(s)
    ensures
      var d := Document(s);
      && ReadInt(d, ["player", "state", "health"]) == s.health && ReadInt(d, ["player", "state", "armor"]) == s.carried.armor
      && ReadInt(d, ["player", "state", "money"]) == s.carried.money
      && ReadInt(d, ["player", "state", "equip_value"]) == s.carried.equipmentValue
      && ReadInt(d, ["player", "state", "flashed"]) == s.flashed && ReadInt(d, ["player", "state", "smoked"]) == s.smoked
      && ReadInt(d, ["player", "state", "burning"]) == s.burning
      && ReadInt(d, ["player", "state", "round_kills"]) == s.roundKills
      && ReadInt(d, ["player", "state", "round_killhs"]) == s.roundHeadshotKills
  {
    hide FindPath, Get, Put, Text, Number, ReadInt, ReadI64, Document, ProviderSection, MapSection, RoundSection,
         PlayerSection, StateSection, StatsSection, Gated, IntFits;
    Sections(s);
    PlayerGets(s);
    StateGets(s);
    DeepNumber(s, "player", "state", "health", s.health);
    DeepNumber(s, "player", "state", "armor", s.carried.armor);
    DeepNumber(s, "player", "state", "money", s.carried.money);
    DeepNumber(s, "player", "state", "equip_value", s.carried.equipmentValue);
    DeepNumber(s, "player", "state", "flashed", s.flashed);
    DeepNumber(s, "player", "state", "smoked", s.smoked);
    DeepNumber(s, "player", "state", "burning", s.burning);
    DeepNumber(s, "player", "state", "round_kills", s.roundKills);
    DeepNumber(s, "player", "state", "round_killhs", s.roundHeadshotKills);
  }

  lemma StatsReads(s: GameState)
    requires Normal(s)
    ensures
      var d := Document(s);
      && ReadInt(d, ["player", "match_stats", "kills"]) == s.carried.kills
      && ReadInt(d, ["player", "match_stats", "assists"]) == s.assists
      && ReadInt(d, ["player", "match_stats", "deaths"]) == s.carried.deaths
      && ReadInt(d, ["player", "match_stats", "mvps"]) == s.mvps
      && ReadInt(d, ["player", "match_stats", "score"]) == s.carried.score
  {
    hide FindPath, Get, Put, Text, Number, ReadInt, ReadI64, Document, ProviderSection, MapSection, RoundSection,
         PlayerSection, StateSection, StatsSection, Gated, IntFits;
    Sections(s);
    PlayerGets(s);
    StatsGet(s);
    DeepNumber(s, "player", "match_stats", "kills", s.carried.kills);
    DeepNumber(s, "player", "match_stats", "assists", s.assists);
    DeepNumber(s, "player", "match_stats", "deaths", s.carried.deaths);
    DeepNumber(s, "player", "match_stats", "mvps", s.mvps);
    DeepNumber(s, "player", "match_stats", "score", s.carried.score);
  }

  lemma CarriedReads(s: GameState)
    requires Normal(s)
    ensures ReadCarried(Document(s), s.localPlayerValid) == s.carried
  {
    hide ReadString, ReadInt, ReadI64, Document, Gated, IntFits;
    CommonReads(s);
    ScoreReads(s);
    PlayerReads(s);
    StateReads(s);
    StatsReads(s);
  }

  /** Every field is read from where the document of a state holds it. */
  lemma DocumentNormalizes(s: GameState)
    requires Normal(s)
    ensures NormalizeValue(Document(s), s.sequence, s.relativeUs) == s
  {
    hide ReadString, ReadInt, ReadI64, Document, IntFits, ReadCarried;
    CommonReads(s);
    PlayerReads(s);
    StateReads(s);
    StatsReads(s);
    CarriedReads(s);
    var c := ReadCommon(Document(s), s.sequence, s.relativeUs);
    assert c.localPlayerValid == s.localPlayerValid;
    assert c.carried == s.carried;
  }

  // ----- A body for every such state -----

  predicate Printable(o: Option<string>) { o.Some? ==> Bytes(o.value) }

  /** Its strings are byte strings. */
  predicate PrintableState(s: GameState) {
    && Printable(s.providerId) && Printable(s.mapName) && Printable(s.mapMode) && Printable(s.mapPhase)
    && Printable(s.roundPhase) && Printable(s.roundWinner) && Printable(s.bombState) && Printable(s.observedId)
    && Printable(s.playerTeam) && Printable(s.carried.activity)
  }

  lemma PutTree(m: map<string, Json>, key: string, v: Option<Json>)
    requires Tree(Obj(m)) && Bytes(key) && (v.Some? ==> Tree(v.value))
    ensures Tree(Obj(Put(m, key, v)))
  {
    hide Bytes;
  }

  lemma PutText(m: map<string, Json>, key: string, o: Option<string>)
    requires Tree(Obj(m)) && Bytes(key) && Printable(o)
    ensures Tree(Obj(Put(m, key, Text(o))))
  {
    PutTree(m, key, Text(o));
    hide Bytes, Put;
  }

  lemma PutNumber(m: map<string, Json>, key: string, o: Option<int>)
    requires Tree(Obj(m)) && Bytes(key) && (o.Some? ==> INT64_MIN <= o.value <= INT64_MAX)
    ensures Tree(Obj(Put(m, key, Number(o))))
  {
    PutTree(m, key, Number(o));
    hide Bytes, Put;
  }

  lemma PutObject(m: map<string, Json>, key: string, values: map<string, Json>)
    requires Tree(Obj(m)) && Bytes(key) && Tree(Obj(values))
    ensures Tree(Obj(m[key := Obj(values)]))
  {
    hide Bytes;
  }

  lemma SectionNames()
    ensures Bytes("provider") && Bytes("map") && Bytes("round") && Bytes("player")
    ensures Bytes("team_ct") && Bytes("team_t") && Bytes("state") && Bytes("match_stats")
  {
  }

  lemma TextNames()
    ensures Bytes("steamid") && Bytes("name") && Bytes("mode") && Bytes("phase") && Bytes("win_team") && Bytes("bomb")
    ensures Bytes("team") && Bytes("activity")
  {
  }

  lemma VitalNames()
    ensures Bytes("health") && Bytes("armor") && Bytes("money") && Bytes("equip_value") && Bytes("flashed")
    ensures Bytes("smoked") && Bytes("burning")
  {
  }

  lemma CountNames()
    ensures Bytes("round_kills") && Bytes("round_killhs") && Bytes("kills") && Bytes("assists") && Bytes("deaths")
    ensures Bytes("mvps") && Bytes("score") && Bytes("timestamp")
  {
  }

  lemma EmptyTree()
    ensures Tree(Obj(map[]))
  {
  }

  lemma CommonTrees(s: GameState)
    requires Normal(s) && PrintableState(s)
    ensures Tree(Obj(ProviderSection(s))) && Tree(Obj(RoundSection(s)))
    ensures Tree(Obj(ScoreSection(s.carried.ctScore))) && Tree(Obj(ScoreSection(s.carried.tScore)))
  {
    hide Put, Tree, Bytes, Text, Number, Gated;
    SectionNames();
    TextNames();
    CountNames();
    EmptyTree();
    PutText(map[], "steamid", s.providerId);
    PutNumber(Put(map[], "steamid", Text(s.providerId)), "timestamp", s.carried.providerTimestamp);
    PutNumber(map[], "score", s.carried.ctScore);
    PutNumber(map[], "score", s.carried.tScore);
    var r := Put(map[], "phase", Text(s.roundPhase));
    PutText(map[], "phase", s.roundPhase);
    PutText(r, "win_team", s.roundWinner);
    PutText(Put(r, "win_team", Text(s.roundWinner)), "bomb", s.bombState);
  }

  lemma MapTree(s: GameState)
    requires Normal(s) && PrintableState(s)
    ensures Tree(Obj(MapSection(s)))
  {
    CommonTrees(s);
    hide Put, Tree, Bytes, Text, Number, Gated, ScoreSection;
    SectionNames();
    TextNames();
    EmptyTree();
    var ct, t := ScoreSection(s.carried.ctScore), ScoreSection(s.carried.tScore);
    var m: map<string, Json> := map[];
    PutObject(m, "team_ct", ct);
    var m1 := m["team_ct" := Obj(ct)];
    PutObject(m1, "team_t", t);
    var m2 := m1["team_t" := Obj(t)];
    assert m2 == map["team_ct" := Obj(ct), "team_t" := Obj(t)];
    PutText(m2, "name", s.mapName);
    var m3 := Put(m2, "name", Text(s.mapName));
    PutText(m3, "mode", s.mapMode);
    var m4 := Put(m3, "mode", Text(s.mapMode));
    PutText(m4, "phase", s.mapPhase);
    PutNumber(Put(m4, "phase", Text(s.mapPhase)), "round", s.mapRound);
  }

  lemma StateTree(s: GameState)
    requires Normal(s)
    ensures Tree(Obj(StateSection(s)))
  {
    hide Put, Tree, Bytes, Number, Gated;
    VitalNames();
    CountNames();
    EmptyTree();
    var m: map<string, Json> := map[];
    PutNumber(m, "health", s.health);
    var m1 := Put(m, "health", Number(s.health));
    PutNumber(m1, "armor", s.carried.armor);
    var m2 := Put(m1, "armor", Number(s.carried.armor));
    PutNumber(m2, "money", s.carried.money);
    var m3 := Put(m2, "money", Number(s.carried.money));
    PutNumber(m3, "equip_value", s.carried.equipmentValue);
    var m4 := VitalsSection(s);
    PutNumber(m4, "flashed", s.flashed);
    var m5 := Put(m4, "flashed", Number(s.flashed));
    PutNumber(m5, "smoked", s.smoked);
    var m6 := Put(m5, "smoked", Number(s.smoked));
    PutNumber(m6, "burning", s.burning);
    var m7 := Put(m6, "burning", Number(s.burning));
    PutNumber(m7, "round_kills", s.roundKills);
    PutNumber(Put(m7, "round_kills", Number(s.roundKills)), "round_killhs", s.roundHeadshotKills);
  }

  lemma StatsTree(s: GameState)
    requires Normal(s)
    ensures Tree(Obj(StatsSection(s)))
  {
    hide Put, Tree, Bytes, Number, Gated;
    CountNames();
    EmptyTree();
    var m: map<string, Json> := map[];
    PutNumber(m, "kills", s.carried.kills);
    var m1 := Put(m, "kills", Number(s.carried.kills));
    PutNumber(m1, "assists", s.assists);
    var m2 := Put(m1, "assists", Number(s.assists));
    PutNumber(m2, "deaths", s.carried.deaths);
    var m3 := Put(m2, "deaths", Number(s.carried.deaths));
    PutNumber(m3, "mvps", s.mvps);
    PutNumber(Put(m3, "mvps", Number(s.mvps)), "score", s.carried.score);
  }

  lemma PlayerTree(s: GameState)
    requires Normal(s) && PrintableState(s)
    ensures Tree(Obj(PlayerSection(s)))
  {
    StateTree(s);
    StatsTree(s);
    hide Put, Tree, Bytes, Text, Gated, StateSection, StatsSection, IntFits;
    SectionNames();
    TextNames();
    EmptyTree();
    var m: map<string, Json> := map[];
    PutObject(m, "state", StateSection(s));
    var m1 := m["state" := Obj(StateSection(s))];
    PutObject(m1, "match_stats", StatsSection(s));
    var m2 := m1["match_stats" := Obj(StatsSection(s))];
    assert m2 == map["state" := Obj(StateSection(s)), "match_stats" := Obj(StatsSection(s))];
    PutText(m2, "steamid", s.observedId);
    var m3 := Put(m2, "steamid", Text(s.observedId));
    PutText(m3, "team", s.playerTeam);
    PutText(Put(m3, "team", Text(s.playerTeam)), "activity", s.carried.activity);
  }

  lemma DocumentTree(s: GameState)
    requires Normal(s) && PrintableState(s)
    ensures Tree(Document(s))
  {
    CommonTrees(s);
    MapTree(s);
    PlayerTree(s);
    hide Tree, Bytes, Normal, PrintableState, ProviderSection, MapSection, RoundSection, PlayerSection;
    SectionNames();
    EmptyTree();
    var m: map<string, Json> := map[];
    PutObject(m, "provider", ProviderSection(s));
    var m1 := m["provider" := Obj(ProviderSection(s))];
    PutObject(m1, "map", MapSection(s));
    var m2 := m1["map" := Obj(MapSection(s))];
    PutObject(m2, "round", RoundSection(s));
    var m3 := m2["round" := Obj(RoundSection(s))];
    PutObject(m3, "player", PlayerSection(s));
  }

  /** Every normal state with byte strings has a body, and with any whitespace around it that
      body normalizes back to exactly the state. */
  lemma EveryStateHasABody(s: GameState)
    requires Normal(s) && PrintableState(s)
    ensures exists d :: ValidDoc(d) && forall before, after :: AllWs(before) && AllWs(after) ==>
      NormalizeGsi(before + DocThen(d, after), s.sequence, s.relativeUs) == s
  {
    hide Normal, PrintableState, Document, Tree, ValidDoc, DocThen, AllWs, Parse, NormalizeValue, Meaning;
    DocumentTree(s);
    DocumentNormalizes(s);
    TreesParseBack(Document(s));
    var d :| ValidDoc(d) && forall before, after :: AllWs(before) && AllWs(after) ==>
      Parse(before + DocThen(d, after)) == Some(Document(s));
    forall before, after | AllWs(before) && AllWs(after)
      ensures NormalizeGsi(before + DocThen(d, after), s.sequence, s.relativeUs) == s
    {
    }
  }

  // ----- Nothing but normal states -----

  /** Every integer in a value is an `int64_t`. */
  predicate IntsFit(v: Json) {
    match v
    case Int(i) => INT64_MIN <= i <= INT64_MAX
    case Arr(items) => forall k :: 0 <= k < |items| ==> IntsFit(items[k])
    case Obj(values) => forall k :: k in values ==> IntsFit(values[k])
    case _ => true
  }

  lemma {:induction false} MeaningFits(d: Doc)
    requires ValidDoc(d)
    ensures IntsFit(Meaning(d))
    decreases d
  {
    hide InDoubleRange, NumberThen, ValidPieces;
    match d
    case ArrayDoc(items) => ItemsFit(items);
    case ObjectDoc(members) => MembersFit(members, map[]);
    case _ =>
  }

  lemma {:induction false} ItemsFit(items: Items)
    requires ValidItems(items)
    ensures forall k :: 0 <= k < |ItemsMeaning(items)| ==> IntsFit(ItemsMeaning(items)[k])
    decreases items
  {
    hide IntsFit, Meaning, ValidDoc;
    MeaningFits(items.doc);
    if items.MoreItems? {
      ItemsFit(items.more);
    }
  }

  lemma {:induction false} MembersFit(ms: Members, known: map<string, Json>)
    requires ValidMembers(ms) && forall k :: k in known ==> IntsFit(known[k])
    ensures forall k :: k in MembersMeaning(ms, known) ==> IntsFit(MembersMeaning(ms, known)[k])
    decreases ms
  {
    hide IntsFit, Meaning, ValidDoc, ValidPieces;
    MeaningFits(ms.m.doc);
    if ms.MoreMembers? {
      MembersFit(ms.more, Assigned(ms.m, known));
    }
  }

  lemma ParsedFits(text: string)
    requires Parse(text).Some?
    ensures IntsFit(Parse(text).value)
  {
    ParseExactly(text, Parse(text).value);
    hide Parse, ValidDoc, Meaning, DocThen, IntsFit;
    var before, d, after :| Denotes(text, before, d, after, Parse(text).value);
    MeaningFits(d);
  }

  lemma {:induction false} FoundFits(root: Json, path: seq<string>)
    requires IntsFit(root) && FindPath(root, path).Some?
    ensures IntsFit(FindPath(root, path).value)
    decreases |path|
  {
    if path != [] {
      FoundFits(root.values[path[0]], path[1..]);
    }
  }

  lemma ReadIntFits(root: Json, path: seq<string>)
    ensures IntFits(ReadInt(root, path))
  {
    hide FindPath;
    if ReadI64(root, path).Some? {
      NarrowFacts(ReadI64(root, path).value);
    }
    hide Narrow, ReadI64;
  }

  lemma CarriedFits(root: Json, local: bool)
    ensures
      var c := ReadCarried(root, local);
      && IntFits(c.ctScore) && IntFits(c.tScore) && IntFits(c.armor) && IntFits(c.money) && IntFits(c.equipmentValue)
      && IntFits(c.kills) && IntFits(c.deaths) && IntFits(c.score)
      && c.providerTimestamp == ReadI64(root, ["provider", "timestamp"])
      && (!local ==> c.armor.None? && c.money.None? && c.equipmentValue.None?
                     && c.kills.None? && c.deaths.None? && c.score.None?)
  {
    hide ReadInt, ReadI64, ReadString, IntFits;
    NothingFits();
    ReadIntFits(root, ["map", "team_ct", "score"]);
    ReadIntFits(root, ["map", "team_t", "score"]);
    ReadIntFits(root, ["player", "state", "armor"]);
    ReadIntFits(root, ["player", "state", "money"]);
    ReadIntFits(root, ["player", "state", "equip_value"]);
    ReadIntFits(root, ["player", "match_stats", "kills"]);
    ReadIntFits(root, ["player", "match_stats", "deaths"]);
    ReadIntFits(root, ["player", "match_stats", "score"]);
  }

  lemma NothingFits()
    ensures IntFits(None)
  {
  }

  lemma TimestampFits(root: Json)
    requires IntsFit(root)
    ensures
      var t := ReadI64(root, ["provider", "timestamp"]);
      t.Some? ==> INT64_MIN <= t.value <= INT64_MAX
  {
    var path := ["provider", "timestamp"];
    if FindPath(root, path).Some? {
      FoundFits(root, path);
    }
    hide FindPath;
  }

  /** Conversely, every body that is used at all normalizes to a normal state. */
  lemma NormalizedIsNormal(body: string, sequence: nat, us: nat)
    ensures
      var s := NormalizeGsi(body, sequence, us);
      s.payloadValid ==> Normal(s)
  {
    NormalizedIsGated(body, sequence, us);
    if Parse(body).Some? && Parse(body).value.Obj? {
      ParsedFits(body);
      var root := Parse(body).value;
      TimestampFits(root);
      CarriedFits(root, ReadCommon(root, sequence, us).localPlayerValid);
      NothingFits();
      ReadIntFits(root, ["map", "round"]);
      ReadIntFits(root, ["player", "state", "health"]);
      ReadIntFits(root, ["player", "state", "flashed"]);
      ReadIntFits(root, ["player", "state", "smoked"]);
      ReadIntFits(root, ["player", "state", "burning"]);
      ReadIntFits(root, ["player", "state", "round_kills"]);
      ReadIntFits(root, ["player", "state", "round_killhs"]);
      ReadIntFits(root, ["player", "match_stats", "assists"]);
      ReadIntFits(root, ["player", "match_stats", "mvps"]);
    }
    hide Parse, ReadInt, ReadI64, ReadString, ReadCarried, IntFits, Gated, IntsFit;
  }
}
