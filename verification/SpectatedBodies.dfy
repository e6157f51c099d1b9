/** Spectator noninterference from the bytes on: bodies that differ only in what they say
    about another observed player lead the live worker to the same batches. */
module SpectatedBodies {
  import opened Json
  import opened GameStates
  import opened SemanticResolution
  import opened Spine
  import opened Spectating
  import opened LivePipeline

  /** Two documents that agree on everything but the `player` object. */
  predicate SameButPlayer(a: Json, b: Json) {
    a.Obj? && b.Obj? && a.values - {"player"} == b.values - {"player"}
  }

  predicate ObservesOther(root: Json) {
    var provider, observed := ReadString(root, ["provider", "steamid"]), ReadString(root, ["player", "steamid"]);
    provider.Some? && observed.Some? && provider != observed
  }

  lemma PathOutsidePlayer(a: Json, b: Json, path: seq<string>)
    requires SameButPlayer(a, b) && path != [] && path[0] != "player"
    ensures FindPath(a, path) == FindPath(b, path)
  {
    var rest, k := a.values - {"player"}, path[0];
    assert k in a.values <==> k in rest;
    assert k in rest ==> a.values[k] == rest[k] == b.values[k];
  }

  lemma ReadOutsidePlayer(a: Json, b: Json, path: seq<string>)
    requires SameButPlayer(a, b) && path != [] && path[0] != "player"
    ensures ReadString(a, path) == ReadString(b, path) && ReadI64(a, path) == ReadI64(b, path)
    ensures ReadInt(a, path) == ReadInt(b, path)
  {
    PathOutsidePlayer(a, b, path);
    hide FindPath, SameButPlayer;
  }

  /** Whatever another observed player's object holds, the normalized states differ in nothing else. */
  lemma OtherPlayersVeiled(a: Json, b: Json, sequence: nat, us: nat)
    requires SameButPlayer(a, b) && ObservesOther(a) && ObservesOther(b)
    ensures SpectatedAlike(NormalizeValue(a, sequence, us), NormalizeValue(b, sequence, us))
  {
    assert |"provider"| == 8 && |"map"| == 3 && |"round"| == 5 && |"player"| == 6;
    ReadOutsidePlayer(a, b, ["provider", "steamid"]);
    ReadOutsidePlayer(a, b, ["map", "name"]);
    ReadOutsidePlayer(a, b, ["map", "mode"]);
    ReadOutsidePlayer(a, b, ["map", "phase"]);
    ReadOutsidePlayer(a, b, ["map", "round"]);
    ReadOutsidePlayer(a, b, ["round", "phase"]);
    ReadOutsidePlayer(a, b, ["round", "win_team"]);
    ReadOutsidePlayer(a, b, ["round", "bomb"]);
    hide ReadString, ReadInt, ReadI64, SameButPlayer, ReadCarried;
  }

  /** The same item, or two packets that agree outside the object of another observed player. */
  predicate ItemsAlike(a: LiveItem, b: LiveItem) {
    || a == b
    || (&& a.LiveGsi? && b.LiveGsi? && a.sequence == b.sequence && a.relativeUs == b.relativeUs
        && Parse(a.body).Some? && Parse(b.body).Some?
        && SameButPlayer(Parse(a.body).value, Parse(b.body).value)
        && ObservesOther(Parse(a.body).value) && ObservesOther(Parse(b.body).value))
  }

  lemma AlikeItemsVeiled(a: LiveItem, b: LiveItem)
    requires ItemsAlike(a, b)
    ensures ObservationsAlike(ObservationOf(a), ObservationOf(b))
  {
    if a != b {
      var v, w := Parse(a.body).value, Parse(b.body).value;
      OtherPlayersVeiled(v, w, a.sequence, a.relativeUs);
      assert NormalizeGsi(a.body, a.sequence, a.relativeUs) == NormalizeValue(v, a.sequence, a.relativeUs);
      assert NormalizeGsi(b.body, b.sequence, b.relativeUs) == NormalizeValue(w, b.sequence, b.relativeUs);
    }
    hide SpectatedAlike, NormalizeValue, NormalizeGsi, Parse, SameButPlayer, ObservesOther;
  }

  lemma {:induction false} SameVisibleBatches(cfg: Config, a: seq<Observation>, b: seq<Observation>, n: nat)
    requires n <= |a| == |b|
    requires forall k :: 0 <= k < |a| ==> ObservationsAlike(a[k], b[k])
    ensures Visible(cfg, a, n) == Visible(cfg, b, n)
  {
    hide BatchAt, ObservationsAlike;
    if n > 0 {
      SameVisibleBatches(cfg, a, b, n - 1);
      SpectatorNoninterference(cfg, a, b, n - 1);
    }
  }

  /** The batches are the same, and so is the context that the resolver ends with. */
  lemma SpectatedBodiesNeverMatter(a: seq<LiveItem>, b: seq<LiveItem>)
    requires |a| == |b| && forall k :: 0 <= k < |a| ==> ItemsAlike(a[k], b[k])
    ensures EventsOf(HandleAll(a).batches) == EventsOf(HandleAll(b).batches)
    ensures HandleAll(a).spine.resolver.context == HandleAll(b).spine.resolver.context
  {
    WorkerRunsSpine(a);
    WorkerRunsSpine(b);
    var x, y := ObservationsOf(a), ObservationsOf(b);
    hide ItemsAlike, ObservationsAlike, ObservationOf, Visible, StateAt, BatchAt, WholeTrace, HandleAll;
    forall k | 0 <= k < |x| ensures ObservationsAlike(x[k], y[k]) {
      AlikeItemsVeiled(a[k], b[k]);
    }
    SameVisibleBatches(DEFAULT_CONFIG, x, y, |x|);
    SpectatorNoninterference(DEFAULT_CONFIG, x, y, |x|);
  }
}
