/** What the loaders read, for every text: a row means what the columns of its header name. */
module RowMeanings {
  import opened Telemetry
  import opened SessionText
  import opened SupplementaryCounts
  import opened SessionFiles

  // ----- Columns by name -----

  datatype TimelineColumn =
    | IngressOrder | Sequence | AcceptedTick | BodyCompleteTick | AckSentTick | PersistCompleteTick | RelativeUs
    | BodyOffset | BodyBytes | BodyFile

  function ColumnName(c: TimelineColumn): string {
    match c
    case IngressOrder => "ingress_order"
    case Sequence => "sequence"
    case AcceptedTick => "accepted_tick"
    case BodyCompleteTick => "body_complete_tick"
    case AckSentTick => "ack_sent_tick"
    case PersistCompleteTick => "persist_complete_tick"
    case RelativeUs => "relative_us"
    case BodyOffset => "body_offset"
    case BodyBytes => "body_bytes"
    case BodyFile => "body_file"
  }

  const V1_COLUMNS := [Sequence, AcceptedTick, BodyCompleteTick, AckSentTick, PersistCompleteTick, RelativeUs, BodyBytes, BodyFile]

  const V2_COLUMNS := [Sequence, AcceptedTick, BodyCompleteTick, AckSentTick, PersistCompleteTick, RelativeUs, BodyOffset, BodyBytes]

  /** Version 1 and 2 rows, with an ingress order in front when there is one. */
  function ColumnsOf(schema: Schema): seq<TimelineColumn> {
    (if schema.hasIngressOrder then [IngressOrder] else []) + if schema.packed then V2_COLUMNS else V1_COLUMNS
  }

  function NamesOf(columns: seq<TimelineColumn>): (r: seq<string>)
    ensures |r| == |columns| && forall k :: 0 <= k < |r| ==> r[k] == ColumnName(columns[k])
  {
    seq(|columns|, k requires 0 <= k < |columns| => ColumnName(columns[k]))
  }

  function HeaderOf(schema: Schema): string { Joined(NamesOf(ColumnsOf(schema))) }

  predicate CellShows(c: TimelineColumn, cell: string, r: SnapshotRecord) {
    match c
    case IngressOrder => Stoull(cell) == Some(r.ingressOrder)
    case Sequence => Stoull(cell) == Some(r.sequence)
    case AcceptedTick => Stoull(cell) == Some(r.acceptedTick)
    case BodyCompleteTick => Stoull(cell) == Some(r.bodyCompleteTick)
    case AckSentTick => Stoull(cell) == Some(r.ackSentTick)
    case PersistCompleteTick => Stoull(cell) == Some(r.persistCompleteTick)
    case RelativeUs => Stoull(cell) == Some(r.relativeUs)
    case BodyOffset => Stoull(cell) == Some(r.bodyOffset)
    case BodyBytes => Stoull(cell) == Some(r.bodyBytes)
    case BodyFile => cell == r.bodyFilename
  }

  /** What a record holds for a column that its row lacks. */
  predicate Defaulted(columns: seq<TimelineColumn>, r: SnapshotRecord) {
    && (IngressOrder !in columns ==> r.ingressOrder == r.sequence)
    && (BodyOffset !in columns ==> r.bodyOffset == 0)
    && (BodyFile !in columns ==> r.bodyFilename == "")
  }

  predicate AllCells(columns: seq<TimelineColumn>, f: seq<string>, r: SnapshotRecord)
    requires |f| >= |columns|
  {
    forall k :: 0 <= k < |columns| ==> CellShows(columns[k], f[k], r)
  }

  predicate FieldsShow(columns: seq<TimelineColumn>, f: seq<string>, r: SnapshotRecord) {
    && |f| >= |columns| && Defaulted(columns, r)
    && AllCells(columns, f, r)
  }

  // The cells after the ingress order, if there is one.

  predicate Rest(schema: Schema, f: seq<string>, g: seq<string>) {
    |f| >= |ColumnsOf(schema)| && g == (if schema.hasIngressOrder then f[1..] else f) && |g| >= 8
  }

  predicate ShownInPlace(g: seq<string>, packed: bool, r: SnapshotRecord)
    requires |g| >= 8
  {
    && Stoull(g[0]) == Some(r.sequence) && Stoull(g[1]) == Some(r.acceptedTick) && Stoull(g[2]) == Some(r.bodyCompleteTick)
    && Stoull(g[3]) == Some(r.ackSentTick) && Stoull(g[4]) == Some(r.persistCompleteTick) && Stoull(g[5]) == Some(r.relativeUs)
    && (if packed then Stoull(g[6]) == Some(r.bodyOffset) && Stoull(g[7]) == Some(r.bodyBytes)
        else Stoull(g[6]) == Some(r.bodyBytes) && g[7] == r.bodyFilename)
  }

  lemma CellsInPlace(columns: seq<TimelineColumn>, g: seq<string>, packed: bool, r: SnapshotRecord)
    requires |g| >= 8 && columns == if packed then V2_COLUMNS else V1_COLUMNS
    ensures AllCells(columns, g, r) <==> ShownInPlace(g, packed, r)
  {
    hide Stoull;
    var c := columns;
    assert c[0] == Sequence && c[1] == AcceptedTick && c[2] == BodyCompleteTick && c[3] == AckSentTick;
    assert c[4] == PersistCompleteTick && c[5] == RelativeUs;
    assert c[6] == if packed then BodyOffset else BodyBytes;
    assert c[7] == if packed then BodyBytes else BodyFile;
  }

  lemma FirstCell(c: TimelineColumn, columns: seq<TimelineColumn>, f: seq<string>, r: SnapshotRecord)
    requires |f| >= |columns| + 1
    ensures AllCells([c] + columns, f, r) <==> CellShows(c, f[0], r) && AllCells(columns, f[1..], r)
  {
    hide CellShows;
    var all := [c] + columns;
    assert all[0] == c;
    forall k | 0 <= k < |columns| ensures all[k + 1] == columns[k] && f[1..][k] == f[k + 1] {
    }
    if CellShows(c, f[0], r) && AllCells(columns, f[1..], r) {
      forall k | 0 <= k < |all| ensures CellShows(all[k], f[k], r) {
        assert k > 0 ==> all[k] == columns[k - 1] && f[k] == f[1..][k - 1];
      }
    }
  }

  lemma ColumnsHeld(schema: Schema)
    ensures IngressOrder in ColumnsOf(schema) <==> schema.hasIngressOrder
    ensures BodyOffset in ColumnsOf(schema) <==> schema.packed
    ensures BodyFile in ColumnsOf(schema) <==> !schema.packed
  {
    assert V2_COLUMNS[6] == BodyOffset && V1_COLUMNS[7] == BodyFile;
  }

  lemma FieldsShown(schema: Schema, f: seq<string>, g: seq<string>, r: SnapshotRecord)
    requires Rest(schema, f, g)
    ensures FieldsShow(ColumnsOf(schema), f, r) <==>
      && ShownInPlace(g, schema.packed, r)
      && (if schema.hasIngressOrder then Stoull(f[0]) == Some(r.ingressOrder) else r.ingressOrder == r.sequence)
      && (if schema.packed then r.bodyFilename == "" else r.bodyOffset == 0)
  {
    var plain := if schema.packed then V2_COLUMNS else V1_COLUMNS;
    CellsInPlace(plain, g, schema.packed, r);
    ColumnsHeld(schema);
    hide Stoull, AllCells, ShownInPlace;
    if schema.hasIngressOrder {
      FirstCell(IngressOrder, plain, f, r);
      assert ColumnsOf(schema) == [IngressOrder] + plain;
    } else {
      assert ColumnsOf(schema) == plain;
    }
  }

  lemma ParsedInPlace(schema: Schema, f: seq<string>, g: seq<string>, e: ReplayEntry)
    requires Rest(schema, f, g)
    ensures
      var r := e.record;
      ParseTimelineFields(schema, f) == Some(e) <==>
        && ShownInPlace(g, schema.packed, r) && e.packed == schema.packed
        && (if schema.hasIngressOrder then Stoull(f[0]) == Some(r.ingressOrder) else r.ingressOrder == r.sequence)
        && (if schema.packed then r.bodyFilename == "" else r.bodyOffset == 0)
  {
    hide Stoull;
    assert |f| >= if schema.hasIngressOrder then 9 else 8;
    hide ColumnsOf;
    var i := if schema.hasIngressOrder then 1 else 0;
    forall k | 0 <= k < 8 ensures g[k] == f[i + k] {
    }
  }

  /** A row is read exactly when it has a cell for every column, and the record holds what the
      cells say; cells beyond the columns are ignored. */
  lemma TimelineRowExactly(schema: Schema, line: string, e: ReplayEntry)
    ensures ParseTimelineRow(schema, line) == Some(e) <==>
      FieldsShow(ColumnsOf(schema), Fields(line), e.record) && e.packed == schema.packed
  {
    hide Fields, ParseTimelineFields;
    var f := Fields(line);
    if |f| >= |ColumnsOf(schema)| {
      var g := if schema.hasIngressOrder then f[1..] else f;
      FieldsShown(schema, f, g, e.record);
      ParsedInPlace(schema, f, g, e);
      hide FieldsShow, ShownInPlace;
    }
  }
  // ----- Headers -----

  /** A header promises packed bodies if "body_offset" occurs anywhere in it, and an ingress order
      if it starts with that column's name and a tab. */
  lemma SchemaExactly(header: string)
    ensures SchemaOf(header).packed <==> exists i: nat :: OccursAt(header, ColumnName(BodyOffset), i)
    ensures SchemaOf(header).hasIngressOrder <==> ColumnName(IngressOrder) + "\t" <= header
  {
    ContainsExactly(header, "body_offset");
    assert ColumnName(BodyOffset) == "body_offset" && ColumnName(IngressOrder) + "\t" == "ingress_order\t";
    hide Contains, OccursAt, ColumnName;
  }

  lemma OccursInPart(a: string, b: string, pattern: string)
    requires Contains(a + (['\t'] + b), pattern) && '\t' !in pattern && pattern != ""
    ensures Contains(a, pattern) || Contains(b, pattern)
  {
    var s := a + (['\t'] + b);
    ContainsExactly(s, pattern);
    ContainsExactly(a, pattern);
    ContainsExactly(b, pattern);
    hide Contains;
    var i: nat :| OccursAt(s, pattern, i);
    forall q | i <= q < i + |pattern| ensures s[q] in pattern {
      assert s[q] == s[i..][q - i] == pattern[q - i];
    }
    assert s[|a|] == '\t';
    if i + |pattern| <= |a| {
      assert a[i..][..|pattern|] == pattern;
      assert OccursAt(a, pattern, i);
    } else if i > |a| {
      var j := i - |a| - 1;
      assert b[j..] == s[i..];
      assert OccursAt(b, pattern, j);
    }
  }

  /** Text without a tab that occurs in a row occurs in one of its cells. */
  lemma {:induction false} OccursInCell(fields: seq<string>, pattern: string) returns (k: nat)
    requires fields != [] && Contains(Joined(fields), pattern) && '\t' !in pattern && pattern != ""
    ensures k < |fields| && Contains(fields[k], pattern)
    decreases |fields|
  {
    k := 0;
    if |fields| > 1 {
      hide Contains;
      OccursInPart(fields[0], Joined(fields[1..]), pattern);
      if !Contains(fields[0], pattern) {
        var j := OccursInCell(fields[1..], pattern);
        k := j + 1;
      }
    }
  }

  lemma ContainsOnly(s: string, pattern: string, c: char)
    requires Contains(s, pattern) && c in pattern
    ensures c in s && |pattern| <= |s|
  {
    ContainsExactly(s, pattern);
    hide Contains;
    var i: nat :| OccursAt(s, pattern, i);
    assert c in s[i..];
  }

  lemma ShortOrPlain(c: TimelineColumn)
    requires c != BodyOffset
    ensures 'f' !in ColumnName(c) || |ColumnName(c)| < 11
  {
  }

  lemma OffsetName(c: TimelineColumn)
    requires c != BodyOffset
    ensures !Contains(ColumnName(c), "body_offset")
  {
    ShortOrPlain(c);
    assert "body_offset"[6] == 'f' && |"body_offset"| == 11;
    hide Contains, ColumnName;
    if Contains(ColumnName(c), "body_offset") {
      ContainsOnly(ColumnName(c), "body_offset", 'f');
      assert false;
    }
  }

  /** The four headers are told apart. */
  lemma HeadersTold(schema: Schema)
    ensures SchemaOf(HeaderOf(schema)) == schema
  {
    var names := NamesOf(ColumnsOf(schema));
    ColumnsHeld(schema);
    if schema.packed {
      var k :| 0 <= k < |names| && ColumnsOf(schema)[k] == BodyOffset;
      ContainsField(names, k);
    } else if Contains(Joined(names), "body_offset") {
      var k := OccursInCell(names, "body_offset");
      OffsetName(ColumnsOf(schema)[k]);
      assert false;
    }
    HeaderStarts(schema);
    hide Contains, ColumnsOf, Joined;
  }

  lemma HeaderStarts(schema: Schema)
    ensures "ingress_order\t" <= HeaderOf(schema) <==> schema.hasIngressOrder
  {
    var names := NamesOf(ColumnsOf(schema));
    assert HeaderOf(schema) == names[0] + (['\t'] + Joined(names[1..]));
    if schema.hasIngressOrder {
      assert names[0] == "ingress_order";
      assert "ingress_order" + ['\t'] == "ingress_order\t";
    } else {
      assert names[0] == "sequence" && "sequence"[0] == 's' && "ingress_order\t"[0] == 'i';
    }
    hide Joined, ColumnsOf;
  }

  /** The header that the recorder writes is the one with both columns. */
  lemma RecorderHeader()
    ensures TIMELINE_HEADER == HeaderOf(Schema(true, true))
  {
    var c := ColumnsOf(Schema(true, true));
    assert c == [IngressOrder, Sequence, AcceptedTick, BodyCompleteTick, AckSentTick, PersistCompleteTick, RelativeUs, BodyOffset, BodyBytes];
    assert TIMELINE_COLUMNS == NamesOf(c);
  }

  // ----- Supplementary rows -----

  datatype SupplementColumn =
    | Ingress | Number | ObservedTick | PersistedTick | ObservedUs | RecordedSource | RosterRevision
    | CtAlive | TAlive | CtTotal | TTotal

  const SUPPLEMENT_COLUMNS :=
    [Ingress, Number, ObservedTick, PersistedTick, ObservedUs, RecordedSource, RosterRevision, CtAlive, TAlive, CtTotal, TTotal]

  function SupplementName(c: SupplementColumn): string {
    match c
    case Ingress => "ingress_order"
    case Number => "sequence"
    case ObservedTick => "observed_tick"
    case PersistedTick => "persist_complete_tick"
    case ObservedUs => "relative_us"
    case RecordedSource => "source"
    case RosterRevision => "roster_revision"
    case CtAlive => "ct_alive"
    case TAlive => "t_alive"
    case CtTotal => "ct_total"
    case TTotal => "t_total"
  }

  /** An empty cell is an absent number. */
  predicate OptionalShows<T(==)>(cell: string, read: Option<T>, o: Option<T>) {
    if cell == "" then o.None? else o.Some? && read == o
  }

  predicate SupplementCellShows(c: SupplementColumn, cell: string, e: SupplementaryEntry) {
    var s := e.record.snapshot;
    match c
    case Ingress => Stoull(cell) == Some(e.record.ingressOrder)
    case Number => Stoull(cell) == Some(s.sequence)
    case ObservedTick => Stoull(cell) == Some(s.observedTick)
    case PersistedTick => Stoull(cell) == Some(e.record.persistCompleteTick)
    case ObservedUs => Stoull(cell) == Some(s.relativeUs)
    case RecordedSource => cell == SourceName(e.recordedSource)
    case RosterRevision => OptionalShows(cell, Stoull(cell), s.rosterRevision)
    case CtAlive => OptionalShows(cell, Stoi(cell), s.teams.ctAlive)
    case TAlive => OptionalShows(cell, Stoi(cell), s.teams.tAlive)
    case CtTotal => OptionalShows(cell, Stoi(cell), s.teams.ctTotal)
    case TTotal => OptionalShows(cell, Stoi(cell), s.teams.tTotal)
  }

  ghost predicate Possible(t: TeamCounts) { Sensible(t.ctAlive, t.ctTotal) && Sensible(t.tAlive, t.tTotal) }

  ghost predicate SupplementShows(f: seq<string>, e: SupplementaryEntry) {
    && |f| >= 11 && e.record.snapshot.source == Replay && Possible(e.record.snapshot.teams)
    && forall k :: 0 <= k < 11 ==> SupplementCellShows(SUPPLEMENT_COLUMNS[k], f[k], e)
  }

  lemma SupplementHeader()
    ensures SUPPLEMENTARY_HEADER == Joined(seq(11, k requires 0 <= k < 11 => SupplementName(SUPPLEMENT_COLUMNS[k])))
  {
    var names := seq(11, k requires 0 <= k < 11 => SupplementName(SUPPLEMENT_COLUMNS[k]));
    assert SUPPLEMENTARY_COLUMNS == names;
  }

  /** The cells in the order of the columns. */
  ghost predicate SupplementInPlace(f: seq<string>, e: SupplementaryEntry)
    requires |f| >= 11
  {
    var r, s := e.record, e.record.snapshot;
    && Stoull(f[0]) == Some(r.ingressOrder) && Stoull(f[1]) == Some(s.sequence) && Stoull(f[2]) == Some(s.observedTick)
    && Stoull(f[3]) == Some(r.persistCompleteTick) && Stoull(f[4]) == Some(s.relativeUs)
    && f[5] == SourceName(e.recordedSource)
    && OptionalShows(f[6], Stoull(f[6]), s.rosterRevision)
    && OptionalShows(f[7], Stoi(f[7]), s.teams.ctAlive) && OptionalShows(f[8], Stoi(f[8]), s.teams.tAlive)
    && OptionalShows(f[9], Stoi(f[9]), s.teams.ctTotal) && OptionalShows(f[10], Stoi(f[10]), s.teams.tTotal)
  }

  lemma SupplementCells(f: seq<string>, e: SupplementaryEntry)
    requires |f| >= 11
    ensures SupplementInPlace(f, e) <==> forall k :: 0 <= k < 11 ==> SupplementCellShows(SUPPLEMENT_COLUMNS[k], f[k], e)
  {
    hide Stoull, Stoi, SourceName, OptionalShows;
    ColumnsInPlace();
    assert SupplementInPlace(f, e) ==> forall k :: 0 <= k < 11 ==> SupplementCellShows(SUPPLEMENT_COLUMNS[k], f[k], e);
    hide SUPPLEMENT_COLUMNS;
  }

  lemma ColumnsInPlace()
    ensures
      var c := SUPPLEMENT_COLUMNS;
      && |c| == 11 && c[0] == Ingress && c[1] == Number && c[2] == ObservedTick && c[3] == PersistedTick && c[4] == ObservedUs
      && c[5] == RecordedSource && c[6] == RosterRevision && c[7] == CtAlive && c[8] == TAlive && c[9] == CtTotal
      && c[10] == TTotal
  {
  }

  lemma SupplementParsed(f: seq<string>, e: SupplementaryEntry)
    requires |f| >= 11
    ensures ParseSupplementaryFields(f) == Some(e) <==>
      SupplementInPlace(f, e) && e.record.snapshot.source == Replay && Possible(e.record.snapshot.teams)
  {
    ValidExactly(e.record.snapshot.teams);
    hide Stoull, Stoi, SourceName, SourceFromName, ValidTeamCounts, Sensible;
    SourceNamesRoundTrip(e.recordedSource, f[5]);
  }

  /** A supplementary row is read exactly when it has eleven cells, a known source and possible
      counts; the snapshot then holds what the cells say, and counts as a replayed one. */
  lemma SupplementaryRowExactly(line: string, e: SupplementaryEntry)
    ensures ParseSupplementaryRow(line) == Some(e) <==> SupplementShows(Fields(line), e)
  {
    hide Fields, ParseSupplementaryFields;
    if |Fields(line)| >= 11 {
      SupplementParsed(Fields(line), e);
      SupplementCells(Fields(line), e);
      hide SupplementInPlace, SupplementCellShows, Possible;
    }
  }
}
