/** A recorded session on disk: what the recorder appends and what the loaders read back. */
module SessionFiles {
  import opened Telemetry
  import opened Text
  import opened SessionText
  import opened SupplementaryCounts

  datatype SnapshotRecord = SnapshotRecord(
    ingressOrder: nat,
    sequence: nat,
    acceptedTick: nat,
    bodyCompleteTick: nat,
    ackSentTick: nat,
    persistCompleteTick: nat,
    relativeUs: nat,
    bodyOffset: nat,
    bodyBytes: nat,
    bodyFilename: string)  // schema v1 only

  datatype SupplementaryRecord = SupplementaryRecord(ingressOrder: nat, persistCompleteTick: nat, snapshot: Snapshot)

  /** The files of a session directory; None for a file that cannot be opened. */
  datatype Session = Session(
    timeline: Option<string>,
    supplementary: Option<string>,
    raw: Option<string>,
    bodies: map<string, string>)  // schema v1 only

  // ----- Rows -----

  const TIMELINE_COLUMNS :=
    ["ingress_order", "sequence", "accepted_tick", "body_complete_tick", "ack_sent_tick", "persist_complete_tick",
     "relative_us", "body_offset", "body_bytes"]

  const SUPPLEMENTARY_COLUMNS :=
    ["ingress_order", "sequence", "observed_tick", "persist_complete_tick", "relative_us", "source", "roster_revision",
     "ct_alive", "t_alive", "ct_total", "t_total"]

  const TIMELINE_HEADER := Joined(TIMELINE_COLUMNS)

  const SUPPLEMENTARY_HEADER := Joined(SUPPLEMENTARY_COLUMNS)

  function TimelineFields(r: SnapshotRecord): seq<string> {
    [NatText(r.ingressOrder), NatText(r.sequence), NatText(r.acceptedTick), NatText(r.bodyCompleteTick),
     NatText(r.ackSentTick), NatText(r.persistCompleteTick), NatText(r.relativeUs), NatText(r.bodyOffset),
     NatText(r.bodyBytes)]
  }

  function SupplementaryFields(r: SupplementaryRecord): seq<string> {
    var s := r.snapshot;
    [NatText(r.ingressOrder), NatText(s.sequence), NatText(s.observedTick), NatText(r.persistCompleteTick),
     NatText(s.relativeUs), SourceName(s.source), OptionalNat(s.rosterRevision),
     OptionalInt(s.teams.ctAlive), OptionalInt(s.teams.tAlive), OptionalInt(s.teams.ctTotal), OptionalInt(s.teams.tTotal)]
  }

  function TimelineRow(r: SnapshotRecord): string { Joined(TimelineFields(r)) }

  function SupplementaryRow(r: SupplementaryRecord): string { Joined(SupplementaryFields(r)) }

  // ----- Loading -----

  datatype ReplayEntry = ReplayEntry(record: SnapshotRecord, packed: bool)

  datatype SupplementaryEntry = SupplementaryEntry(record: SupplementaryRecord, recordedSource: SourceKind)

  /** What a header says about its rows. */
  datatype Schema = Schema(packed: bool, hasIngressOrder: bool)

  function SchemaOf(header: string): Schema {
    Schema(Contains(header, "body_offset"), "ingress_order\t" <= header)
  }

  /** One column as a number; an absent earlier number stays absent. */
  function Column(fields: seq<string>, i: nat): Option<nat> {
    if i < |fields| then Stoull(fields[i]) else None
  }

  function ParseTimelineFields(schema: Schema, f: seq<string>): Option<ReplayEntry>
    requires |f| >= (if schema.hasIngressOrder then 9 else 8)
  {
    var i := if schema.hasIngressOrder then 1 else 0;
    var sequence := Column(f, i);
    var order := if schema.hasIngressOrder then Column(f, 0) else sequence;
    var accepted, complete, ack := Column(f, i + 1), Column(f, i + 2), Column(f, i + 3);
    var persisted, us := Column(f, i + 4), Column(f, i + 5);
    var offset := if schema.packed then Column(f, i + 6) else Some(0);
    var bytes := Column(f, if schema.packed then i + 7 else i + 6);
    if order.None? || sequence.None? || accepted.None? || complete.None? || ack.None? || persisted.None?
       || us.None? || offset.None? || bytes.None? then None
    else Some(ReplayEntry(
      SnapshotRecord(order.value, sequence.value, accepted.value, complete.value, ack.value, persisted.value,
                     us.value, offset.value, bytes.value, if schema.packed then "" else f[i + 7]),
      schema.packed))
  }

  function ParseTimelineRow(schema: Schema, line: string): Option<ReplayEntry> {
    var f := Fields(line);
    if |f| < (if schema.hasIngressOrder then 9 else 8) then None else ParseTimelineFields(schema, f)
  }

  function ParseSupplementaryFields(f: seq<string>): Option<SupplementaryEntry>
    requires |f| >= 11
  {
    var order, sequence, tick := Stoull(f[0]), Stoull(f[1]), Stoull(f[2]);
    var persisted, us, source := Stoull(f[3]), Stoull(f[4]), SourceFromName(f[5]);
    var roster, ctAlive, tAlive := ParseOptionalNat(f[6]), ParseOptionalInt(f[7]), ParseOptionalInt(f[8]);
    var ctTotal, tTotal := ParseOptionalInt(f[9]), ParseOptionalInt(f[10]);
    if order.None? || sequence.None? || tick.None? || persisted.None? || us.None? || source.None?
       || roster.None? || ctAlive.None? || tAlive.None? || ctTotal.None? || tTotal.None? then None
    else
      var teams := TeamCounts(ctAlive.value, tAlive.value, ctTotal.value, tTotal.value);
      if !ValidTeamCounts(teams) then None
      else Some(SupplementaryEntry(
        SupplementaryRecord(order.value, persisted.value,
                            Snapshot(sequence.value, tick.value, us.value, roster.value, Replay, teams)),
        source.value))
  }

  function ParseSupplementaryRow(line: string): Option<SupplementaryEntry> {
    var f := Fields(line);
    if |f| < 11 then None else ParseSupplementaryFields(f)
  }

  /** The first line, empty when there is none, and the others. */
  function HeaderAndRows(text: string): (string, seq<string>) {
    var lines := Lines(text);
    if lines == [] then ("", []) else (lines[0], lines[1..])
  }

  function LoadTimeline(session: Session): Option<seq<ReplayEntry>> {
    if session.timeline.None? then None
    else
      var (header, rows) := HeaderAndRows(session.timeline.value);
      ParseRows(TimelineParser(SchemaOf(header)), rows, [])
  }

  function TimelineParser(schema: Schema): string -> Option<ReplayEntry> {
    line => ParseTimelineRow(schema, line)
  }

  function LoadSupplementaryTimeline(session: Session): Option<seq<SupplementaryEntry>> {
    if session.supplementary.None? then Some([])
    else
      var (header, rows) := HeaderAndRows(session.supplementary.value);
      if header != SUPPLEMENTARY_HEADER then None else ParseRows(ParseSupplementaryRow, rows, [])
  }

  datatype ReplayItem =
    | GsiItem(gsi: ReplayEntry)
    | SupplementItem(supplement: SupplementaryEntry)

  function Order(item: ReplayItem): nat {
    match item
    case GsiItem(e) => e.record.ingressOrder
    case SupplementItem(e) => e.record.ingressOrder
  }

  function ItemUs(item: ReplayItem): nat {
    match item
    case GsiItem(e) => e.record.relativeUs
    case SupplementItem(e) => e.record.snapshot.relativeUs
  }

  /** Ingress order first, then observation time, then GSI before supplements. */
  predicate Precedes(a: ReplayItem, b: ReplayItem) {
    if Order(a) != Order(b) then Order(a) < Order(b)
    else if ItemUs(a) != ItemUs(b) then ItemUs(a) < ItemUs(b)
    else a.GsiItem? && b.SupplementItem?
  }

  /** Behind everything that does not come after it. */
  function Insert(item: ReplayItem, sorted: seq<ReplayItem>): seq<ReplayItem> {
    if sorted == [] then [item]
    else
      var last := sorted[|sorted| - 1];
      if Precedes(item, last) then Insert(item, sorted[..|sorted| - 1]) + [last] else sorted + [item]
  }

  /** `std::stable_sort` as the insertion sort, which is stable. */
  function StableSort(items: seq<ReplayItem>): seq<ReplayItem> {
    if items == [] then [] else Insert(items[|items| - 1], StableSort(items[..|items| - 1]))
  }

  function GsiItems(entries: seq<ReplayEntry>): (r: seq<ReplayItem>)
    ensures |r| == |entries| && forall k :: 0 <= k < |r| ==> r[k] == GsiItem(entries[k])
  {
    seq(|entries|, k requires 0 <= k < |entries| => GsiItem(entries[k]))
  }

  function SupplementItems(entries: seq<SupplementaryEntry>): (r: seq<ReplayItem>)
    ensures |r| == |entries| && forall k :: 0 <= k < |r| ==> r[k] == SupplementItem(entries[k])
  {
    seq(|entries|, k requires 0 <= k < |entries| => SupplementItem(entries[k]))
  }

  function LoadReplayStream(session: Session): Option<seq<ReplayItem>> {
    var gsi, supplements := LoadTimeline(session), LoadSupplementaryTimeline(session);
    if gsi.None? || supplements.None? then None
    else Some(StableSort(GsiItems(gsi.value) + SupplementItems(supplements.value)))
  }

  /** A short read throws. */
  function LoadReplayBody(session: Session, entry: ReplayEntry): Option<string> {
    var r := entry.record;
    if !entry.packed then
      if r.bodyFilename in session.bodies then Some(session.bodies[r.bodyFilename]) else None
    else if session.raw.None? then None
    else if r.bodyBytes == 0 then Some("")
    else if r.bodyOffset + r.bodyBytes <= |session.raw.value|
      then Some(session.raw.value[r.bodyOffset..r.bodyOffset + r.bodyBytes])
    else None
  }

  // ----- The loaders as loops -----

  /** `std::getline` on what is left of a stream. */
  method GetLine(text: string) returns (line: string, rest: string)
    requires text != ""
    ensures Lines(text) == [line] + Lines(rest) && |rest| < |text|
  {
    line := Before({'\n'}, text);
    rest := if |line| == |text| then "" else text[|line| + 1..];
  }

  method ReadTimeline(session: Session) returns (entries: Option<seq<ReplayEntry>>)
    ensures entries == LoadTimeline(session)
  {
    if session.timeline.None? {
      return None;
    }
    var header, rest := "", "";
    if session.timeline.value != "" {
      header, rest := GetLine(session.timeline.value);
    }
    var schema := SchemaOf(header);
    ghost var parse := TimelineParser(schema);
    ghost var rows := Lines(rest);
    var read: seq<ReplayEntry> := [];
    assert LoadTimeline(session) == ParseRows(parse, rows, []);
    while rest != ""
      invariant ParseRows(parse, Lines(rest), read) == ParseRows(parse, rows, [])
      decreases |rest|
    {
      ghost var before := Lines(rest);
      var line;
      line, rest := GetLine(rest);
      assert before[1..] == Lines(rest);
      if line != "" {
        var fields := SplitTsv(line);
        var expected := if schema.hasIngressOrder then 9 else 8;
        if |fields| < expected {
          return None;
        }
        var entry := ParseTimelineFields(schema, fields);
        if entry.None? {
          return None;
        }
        read := read + [entry.value];
      }
    }
    entries := Some(read);
  }

  method ReadSupplementaryTimeline(session: Session) returns (entries: Option<seq<SupplementaryEntry>>)
    ensures entries == LoadSupplementaryTimeline(session)
  {
    if session.supplementary.None? {
      return Some([]);
    }
    var header, rest := "", "";
    if session.supplementary.value != "" {
      header, rest := GetLine(session.supplementary.value);
    }
    if header != SUPPLEMENTARY_HEADER {
      return None;
    }
    ghost var rows := Lines(rest);
    var read: seq<SupplementaryEntry> := [];
    assert LoadSupplementaryTimeline(session) == ParseRows(ParseSupplementaryRow, rows, []);
    while rest != ""
      invariant ParseRows(ParseSupplementaryRow, Lines(rest), read) == ParseRows(ParseSupplementaryRow, rows, [])
      decreases |rest|
    {
      ghost var before := Lines(rest);
      var line;
      line, rest := GetLine(rest);
      assert before[1..] == Lines(rest);
      if line != "" {
        var fields := SplitTsv(line);
        if |fields| < 11 {
          return None;
        }
        var entry := ParseSupplementaryFields(fields);
        if entry.None? {
          return None;
        }
        read := read + [entry.value];
      }
    }
    entries := Some(read);
  }

  method ReadReplayStream(session: Session) returns (items: Option<seq<ReplayItem>>)
    ensures items == LoadReplayStream(session)
  {
    hide LoadTimeline, LoadSupplementaryTimeline, StableSort, GsiItems, SupplementItems;
    var gsi := ReadTimeline(session);
    if gsi.None? {
      return None;
    }
    var supplements := ReadSupplementaryTimeline(session);
    if supplements.None? {
      return None;
    }
    var all: seq<ReplayItem> := [];
    ItemsGrow(gsi.value, supplements.value);
    for k := 0 to |gsi.value|
      invariant all == GsiItems(gsi.value[..k])
    {
      all := all + [GsiItem(gsi.value[k])];
    }
    ghost var first := all;
    for k := 0 to |supplements.value|
      invariant all == first + SupplementItems(supplements.value[..k])
    {
      all := all + [SupplementItem(supplements.value[k])];
    }
    items := Some(StableSort(all));
  }

  lemma ItemsGrow(gsi: seq<ReplayEntry>, supplements: seq<SupplementaryEntry>)
    ensures GsiItems(gsi[..0]) == [] && SupplementItems(supplements[..0]) == []
    ensures gsi[..|gsi|] == gsi && supplements[..|supplements|] == supplements
    ensures forall k :: 0 <= k < |gsi| ==> GsiItems(gsi[..k + 1]) == GsiItems(gsi[..k]) + [GsiItem(gsi[k])]
    ensures forall k :: 0 <= k < |supplements| ==>
      SupplementItems(supplements[..k + 1]) == SupplementItems(supplements[..k]) + [SupplementItem(supplements[k])]
  {
  }
}
