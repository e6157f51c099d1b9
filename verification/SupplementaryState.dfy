/** Team counts published by an optional provider, and how the local team sees them. */
module SupplementaryCounts {
  import opened Telemetry

  predicate NonNegative(o: Option<int>) { o.Some? ==> o.value >= 0 }

  predicate WithinTotal(alive: Option<int>, total: Option<int>) {
    alive.Some? && total.Some? ==> alive.value <= total.value
  }

  predicate ValidTeamCounts(t: TeamCounts) {
    && NonNegative(t.ctAlive) && NonNegative(t.tAlive) && NonNegative(t.ctTotal) && NonNegative(t.tTotal)
    && WithinTotal(t.ctAlive, t.ctTotal) && WithinTotal(t.tAlive, t.tTotal)
  }

  datatype Perspective = Perspective(
    localAlive: Option<int>,
    enemyAlive: Option<int>,
    localTotal: Option<int>,
    enemyTotal: Option<int>)

  function PerspectiveForTeam(t: TeamCounts, team: string): Option<Perspective> {
    if !ValidTeamCounts(t) then None
    else if team == "CT" then Some(Perspective(t.ctAlive, t.tAlive, t.ctTotal, t.tTotal))
    else if team == "T" then Some(Perspective(t.tAlive, t.ctAlive, t.tTotal, t.ctTotal))
    else None
  }

  // ----- The two sides, by name -----

  function OwnAlive(team: string, t: TeamCounts): Option<int> {
    match team case "CT" => t.ctAlive case "T" => t.tAlive case _ => None
  }

  function OwnTotal(team: string, t: TeamCounts): Option<int> {
    match team case "CT" => t.ctTotal case "T" => t.tTotal case _ => None
  }

  function EnemyAlive(team: string, t: TeamCounts): Option<int> {
    match team case "CT" => t.tAlive case "T" => t.ctAlive case _ => None
  }

  function EnemyTotal(team: string, t: TeamCounts): Option<int> {
    match team case "CT" => t.tTotal case "T" => t.ctTotal case _ => None
  }

  /** No negative number, and no more alive than there are. */
  ghost predicate Sensible(alive: Option<int>, total: Option<int>) {
    && (forall n :: alive == Some(n) || total == Some(n) ==> 0 <= n)
    && (forall a, n :: alive == Some(a) && total == Some(n) ==> a <= n)
  }

  lemma ValidExactly(t: TeamCounts)
    ensures ValidTeamCounts(t) <==> Sensible(t.ctAlive, t.ctTotal) && Sensible(t.tAlive, t.tTotal)
  {
  }

  /** A view exists exactly for sensible counts and one of the two teams; its four numbers are that
      team's and the other's, each alive count within its own total. */
  lemma PerspectiveExactly(t: TeamCounts, team: string)
    ensures PerspectiveForTeam(t, team).Some? <==> ValidTeamCounts(t) && (team == "CT" || team == "T")
    ensures PerspectiveForTeam(t, team).Some? ==>
      var v := PerspectiveForTeam(t, team).value;
      && v.localAlive == OwnAlive(team, t) && v.localTotal == OwnTotal(team, t)
      && v.enemyAlive == EnemyAlive(team, t) && v.enemyTotal == EnemyTotal(team, t)
      && WithinTotal(v.localAlive, v.localTotal) && WithinTotal(v.enemyAlive, v.enemyTotal)
  {
    assert "CT" != "T" by { assert |"CT"| == 2 && |"T"| == 1; }
  }

  // ----- The CT/T mirror -----

  function MirrorTeam(team: string): string {
    if team == "CT" then "T" else if team == "T" then "CT" else team
  }

  function MirrorCounts(t: TeamCounts): TeamCounts {
    TeamCounts(t.tAlive, t.ctAlive, t.tTotal, t.ctTotal)
  }

  lemma PerspectiveMirror(t: TeamCounts, team: string)
    ensures PerspectiveForTeam(MirrorCounts(t), MirrorTeam(team)) == PerspectiveForTeam(t, team)
    ensures ValidTeamCounts(MirrorCounts(t)) == ValidTeamCounts(t)
  {
  }

  // ----- Source names -----

  function SourceName(k: SourceKind): string {
    match k
    case Unknown => "unknown"
    case Synthetic => "synthetic"
    case Replay => "replay"
    case PanoramaVisibleState => "panorama-visible-state"
  }

  function SourceFromName(name: string): Option<SourceKind> {
    if name == "unknown" then Some(Unknown)
    else if name == "synthetic" then Some(Synthetic)
    else if name == "replay" then Some(Replay)
    else if name == "panorama-visible-state" then Some(PanoramaVisibleState)
    else None
  }

  /** The names that sessions are written with. */
  lemma SourceNamesAre()
    ensures SourceName(Unknown) == "unknown" && SourceName(Synthetic) == "synthetic" && SourceName(Replay) == "replay"
    ensures SourceName(PanoramaVisibleState) == "panorama-visible-state"
  {
  }

  /** Names and kinds correspond one to one. */
  lemma SourceNamesRoundTrip(k: SourceKind, name: string)
    ensures SourceFromName(SourceName(k)) == Some(k)
    ensures SourceFromName(name) == Some(k) <==> name == SourceName(k)
  {
  }
}
