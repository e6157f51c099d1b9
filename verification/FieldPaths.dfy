/** What the normalizer reads, for every packet: each field is the value stored under its own
    keys, so nothing else in the packet matters. */
module FieldPaths {
  import opened Telemetry
  import opened Json
  import opened GameStates

  // ----- Independent lookups -----

  /** What an object stores for a key. An absent key reads like null: neither is text or a number. */
  function Field(v: Json, key: string): Json {
    if v.Obj? && key in v.values then v.values[key] else Null
  }

  function TextOf(v: Json): Option<string> { if v.Str? then Some(v.s) else None }

  function LongOf(v: Json): Option<int> { if v.Int? then Some(v.i) else None }

  /** The low 32 bits, of which the highest counts negatively. */
  function LowBits(i: int): int {
    var bits := i % 0x1_0000_0000;
    if bits < 0x8000_0000 then bits else bits - 0x1_0000_0000
  }

  function IntOf(v: Json): Option<int> { if v.Int? then Some(LowBits(v.i)) else None }

  lemma LowBitsExactly(i: int)
    ensures Narrow(i) == LowBits(i)
  {
  }

  lemma Path1(root: Json, a: string)
    ensures FindPath(root, [a]).Some? ==> FindPath(root, [a]).value == Field(root, a)
    ensures FindPath(root, [a]).None? ==> Field(root, a) == Null
  {
    assert [a][1..] == [];
    assert root.Obj? && a in root.values ==> FindPath(root.values[a], []) == Some(root.values[a]);
  }

  lemma Path2(root: Json, a: string, b: string)
    ensures FindPath(root, [a, b]).Some? ==> FindPath(root, [a, b]).value == Field(Field(root, a), b)
    ensures FindPath(root, [a, b]).None? ==> Field(Field(root, a), b) == Null
  {
    assert [a, b][1..] == [b];
    Path1(Field(root, a), b);
  }

  lemma Path3(root: Json, a: string, b: string, c: string)
    ensures FindPath(root, [a, b, c]).Some? ==> FindPath(root, [a, b, c]).value == Field(Field(Field(root, a), b), c)
    ensures FindPath(root, [a, b, c]).None? ==> Field(Field(Field(root, a), b), c) == Null
  {
    assert [a, b, c][1..] == [b, c];
    Path2(Field(root, a), b, c);
  }

  lemma Reads2(root: Json, a: string, b: string)
    ensures ReadString(root, [a, b]) == TextOf(Field(Field(root, a), b))
    ensures ReadI64(root, [a, b]) == LongOf(Field(Field(root, a), b))
    ensures ReadInt(root, [a, b]) == IntOf(Field(Field(root, a), b))
  {
    Path2(root, a, b);
    hide FindPath, Narrow, LowBits, Field;
    forall i ensures Narrow(i) == LowBits(i) { LowBitsExactly(i); }
  }

  lemma Reads3(root: Json, a: string, b: string, c: string)
    ensures ReadInt(root, [a, b, c]) == IntOf(Field(Field(Field(root, a), b), c))
  {
    Path3(root, a, b, c);
    hide FindPath, Narrow, LowBits, Field;
    forall i ensures Narrow(i) == LowBits(i) { LowBitsExactly(i); }
  }

  // ----- Every field of the normal form -----

  /** The two identities are present and the same. */
  predicate SamePlayer(provider: Json, player: Json) {
    Field(provider, "steamid").Str? && Field(player, "steamid") == Field(provider, "steamid")
  }

  /** A counter is read for the provider alone. */
  function ForProvider(open: bool, v: Json): Option<int> { if open then IntOf(v) else None }

  function CarriedAtPaths(provider: Json, game: Json, player: Json): Carried {
    var own, now, total := SamePlayer(provider, player), Field(player, "state"), Field(player, "match_stats");
    Carried(
      LongOf(Field(provider, "timestamp")),
      IntOf(Field(Field(game, "team_ct"), "score")),
      IntOf(Field(Field(game, "team_t"), "score")),
      TextOf(Field(player, "activity")),
      ForProvider(own, Field(now, "armor")),
      ForProvider(own, Field(now, "money")),
      ForProvider(own, Field(now, "equip_value")),
      ForProvider(own, Field(total, "kills")),
      ForProvider(own, Field(total, "deaths")),
      ForProvider(own, Field(total, "score")))
  }

  /** The state whose fields, in the order of their declaration, are the values at their paths. */
  function AtPaths(root: Json, sequence: nat, us: nat): GameState {
    var provider, game, round, player := Field(root, "provider"), Field(root, "map"), Field(root, "round"), Field(root, "player");
    var own, now, total := SamePlayer(provider, player), Field(player, "state"), Field(player, "match_stats");
    GameState(
      sequence, us, true,
      TextOf(Field(provider, "steamid")),
      TextOf(Field(game, "name")),
      TextOf(Field(game, "mode")),
      TextOf(Field(game, "phase")),
      IntOf(Field(game, "round")),
      TextOf(Field(round, "phase")),
      TextOf(Field(round, "win_team")),
      TextOf(Field(round, "bomb")),
      TextOf(Field(player, "steamid")),
      own,
      TextOf(Field(player, "team")),
      ForProvider(own, Field(now, "health")),
      ForProvider(own, Field(now, "flashed")),
      ForProvider(own, Field(now, "smoked")),
      ForProvider(own, Field(now, "burning")),
      ForProvider(own, Field(now, "round_kills")),
      ForProvider(own, Field(now, "round_killhs")),
      ForProvider(own, Field(total, "assists")),
      ForProvider(own, Field(total, "mvps")),
      CarriedAtPaths(provider, game, player))
  }

  lemma CommonFields(root: Json, sequence: nat, us: nat)
    ensures
      var s, t := ReadCommon(root, sequence, us), AtPaths(root, sequence, us);
      s == t.(health := None, flashed := None, smoked := None, burning := None, roundKills := None,
              roundHeadshotKills := None, assists := None, mvps := None, carried := ReadCarried(root, s.localPlayerValid))
  {
    Reads2(root, "provider", "steamid");
    Reads2(root, "player", "steamid");
    Reads2(root, "map", "name");
    Reads2(root, "map", "mode");
    Reads2(root, "map", "phase");
    Reads2(root, "map", "round");
    Reads2(root, "round", "phase");
    Reads2(root, "round", "win_team");
    Reads2(root, "round", "bomb");
    Reads2(root, "player", "team");
    hide ReadString, ReadInt, ReadCarried, CarriedAtPaths, Field, IntOf, ForProvider;
  }

  lemma CarriedFields(root: Json)
    ensures
      var provider, game, player := Field(root, "provider"), Field(root, "map"), Field(root, "player");
      ReadCarried(root, SamePlayer(provider, player)) == CarriedAtPaths(provider, game, player)
  {
    Reads2(root, "provider", "timestamp");
    Reads3(root, "map", "team_ct", "score");
    Reads3(root, "map", "team_t", "score");
    Reads2(root, "player", "activity");
    Reads3(root, "player", "state", "armor");
    Reads3(root, "player", "state", "money");
    Reads3(root, "player", "state", "equip_value");
    Reads3(root, "player", "match_stats", "kills");
    Reads3(root, "player", "match_stats", "deaths");
    Reads3(root, "player", "match_stats", "score");
    hide ReadString, ReadInt, ReadI64, Field, IntOf, TextOf, LongOf, SamePlayer;
  }

  /** Every field of a usable packet's normal form is the value at its path. */
  lemma FieldsExactly(root: Json, sequence: nat, us: nat)
    ensures NormalizeValue(root, sequence, us) == AtPaths(root, sequence, us)
  {
    CommonFields(root, sequence, us);
    CarriedFields(root);
    Reads3(root, "player", "state", "health");
    Reads3(root, "player", "state", "flashed");
    Reads3(root, "player", "state", "smoked");
    Reads3(root, "player", "state", "burning");
    Reads3(root, "player", "state", "round_kills");
    Reads3(root, "player", "state", "round_killhs");
    Reads3(root, "player", "match_stats", "assists");
    Reads3(root, "player", "match_stats", "mvps");
    hide ReadString, ReadInt, ReadCommon, ReadCarried, CarriedAtPaths, Field, IntOf, TextOf, SamePlayer;
  }

  /** A body is usable exactly when it is the text of an object; any other leaves every field empty. */
  lemma BodyExactly(body: string, sequence: nat, us: nat)
    ensures
      match Parse(body)
      case Some(Obj(values)) => NormalizeGsi(body, sequence, us) == AtPaths(Obj(values), sequence, us)
      case _ =>
        NormalizeGsi(body, sequence, us) ==
          GameState(sequence, us, false, None, None, None, None, None, None, None, None, None, false,
            None, None, None, None, None, None, None, None, None,
            Carried(None, None, None, None, None, None, None, None, None, None))
  {
    if Parse(body).Some? {
      FieldsExactly(Parse(body).value, sequence, us);
    }
    hide Parse, AtPaths, NormalizeValue;
  }
}
