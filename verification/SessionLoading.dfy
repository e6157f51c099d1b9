/** What loading a session directory yields, for every content of its files, and what that
    means for the sessions of the two older schemas. */
module SessionLoading {
  import opened Telemetry
  import opened Text
  import opened SessionText
  import opened SessionFiles
  import opened RowMeanings
  import opened Storage

  // ----- Rows of a file -----

  function Filled(lines: seq<string>): seq<string> {
    if lines == [] then [] else (if lines[0] == "" then [] else [lines[0]]) + Filled(lines[1..])
  }

  ghost predicate RowsParsed<T>(parse: string -> Option<T>, rows: seq<string>, read: seq<T>) {
    |rows| == |read| && forall k :: 0 <= k < |rows| ==> parse(rows[k]) == Some(read[k])
  }

  lemma OneMoreRow<T>(parse: string -> Option<T>, row: string, rows: seq<string>, before: seq<T>, v: T, all: seq<T>)
    requires parse(row) == Some(v)
    ensures (before + [v] <= all && RowsParsed(parse, rows, all[|before| + 1..])) <==>
      (before <= all && RowsParsed(parse, [row] + rows, all[|before|..]))
  {
    if before + [v] <= all {
      assert all[|before|..] == [v] + all[|before| + 1..];
    }
    if before <= all && RowsParsed(parse, [row] + rows, all[|before|..]) {
      var rest := all[|before|..];
      assert ([row] + rows)[0] == row;
      assert all == before + rest && rest[0] == v;
      assert all[|before| + 1..] == rest[1..];
      forall k | 0 <= k < |rows| ensures parse(rows[k]) == Some(rest[1..][k]) {
        assert ([row] + rows)[k + 1] == rows[k];
      }
    }
  }

  /** The rows of a file are those of its lines that are not empty; one that throws fails the file. */
  lemma {:induction false} ParseRowsExactly<T>(parse: string -> Option<T>, lines: seq<string>, before: seq<T>, all: seq<T>)
    ensures ParseRows(parse, lines, before) == Some(all) <==> before <= all && RowsParsed(parse, Filled(lines), all[|before|..])
    decreases |lines|
  {
    hide RowsParsed;
    if lines == [] {
      NoRows(parse, before, all);
    } else if lines[0] == "" {
      assert Filled(lines) == Filled(lines[1..]);
      ParseRowsExactly(parse, lines[1..], before, all);
    } else if parse(lines[0]).Some? {
      var v := parse(lines[0]).value;
      ParseRowsExactly(parse, lines[1..], before + [v], all);
      OneMoreRow(parse, lines[0], Filled(lines[1..]), before, v, all);
    } else {
      FailedRow(parse, Filled(lines), if before <= all then all[|before|..] else []);
    }
  }

  lemma NoRows<T>(parse: string -> Option<T>, before: seq<T>, all: seq<T>)
    ensures (before <= all && RowsParsed(parse, [], all[|before|..])) <==> before == all
  {
  }

  lemma FailedRow<T>(parse: string -> Option<T>, rows: seq<string>, read: seq<T>)
    requires rows != [] && parse(rows[0]).None?
    ensures !RowsParsed(parse, rows, read)
  {
  }

  function FirstOf(lines: seq<string>): string { if lines == [] then "" else lines[0] }

  function Others(lines: seq<string>): seq<string> { if lines == [] then [] else Filled(lines[1..]) }

  /** The timeline loads exactly when it is there and every row has the cells that its header names. */
  lemma TimelineExactly(session: Session, entries: seq<ReplayEntry>)
    ensures LoadTimeline(session) == Some(entries) <==>
      if session.timeline.None? then false
      else
        var lines := Lines(session.timeline.value);
        var schema := SchemaOf(FirstOf(lines));
        && |entries| == |Others(lines)|
        && forall k :: 0 <= k < |entries| ==>
             entries[k].packed == schema.packed && FieldsShow(ColumnsOf(schema), Fields(Others(lines)[k]), entries[k].record)
  {
    hide ParseTimelineRow, Fields, Lines, SchemaOf, FieldsShow, ColumnsOf, ParseRows;
    if session.timeline.Some? {
      var lines := Lines(session.timeline.value);
      var schema := SchemaOf(FirstOf(lines));
      var (_, rows) := HeaderAndRows(session.timeline.value);
      ParseRowsExactly(TimelineParser(schema), rows, [], entries);
      assert Others(lines) == Filled(rows) && entries[0..] == entries;
      forall k | 0 <= k < |entries| && |entries| == |Others(lines)|
        ensures TimelineParser(schema)(Others(lines)[k]) == Some(entries[k]) <==>
          entries[k].packed == schema.packed && FieldsShow(ColumnsOf(schema), Fields(Others(lines)[k]), entries[k].record)
      {
        TimelineRowExactly(schema, Others(lines)[k], entries[k]);
      }
    }
  }

  /** A session without a supplementary file has no supplements; one with another header does not load. */
  lemma SupplementsExactly(session: Session, entries: seq<SupplementaryEntry>)
    ensures LoadSupplementaryTimeline(session) == Some(entries) <==>
      if session.supplementary.None? then entries == []
      else
        var lines := Lines(session.supplementary.value);
        && FirstOf(lines) == SUPPLEMENTARY_HEADER && |entries| == |Others(lines)|
        && forall k :: 0 <= k < |entries| ==> SupplementShows(Fields(Others(lines)[k]), entries[k])
  {
    hide ParseSupplementaryRow, Fields, Lines, SupplementShows, ParseRows, SUPPLEMENTARY_HEADER;
    if session.supplementary.Some? {
      var lines := Lines(session.supplementary.value);
      var (_, rows) := HeaderAndRows(session.supplementary.value);
      ParseRowsExactly(ParseSupplementaryRow, rows, [], entries);
      assert Others(lines) == Filled(rows) && entries[0..] == entries;
      forall k | 0 <= k < |entries| && |entries| == |Others(lines)|
        ensures ParseSupplementaryRow(Others(lines)[k]) == Some(entries[k]) <==> SupplementShows(Fields(Others(lines)[k]), entries[k])
      {
        SupplementaryRowExactly(Others(lines)[k], entries[k]);
      }
    }
  }

  /** A body is its own file, or the named slice of the raw file; a slice that the file does not
      hold throws, but for an empty one. */
  lemma BodyExactly(session: Session, e: ReplayEntry, body: string)
    ensures
      var r := e.record;
      LoadReplayBody(session, e) == Some(body) <==>
        if e.packed then
          session.raw.Some? && |body| == r.bodyBytes
          && (body == "" || exists before, after :: |before| == r.bodyOffset && session.raw.value == before + body + after)
        else r.bodyFilename in session.bodies && session.bodies[r.bodyFilename] == body
  {
    var r := e.record;
    if e.packed && session.raw.Some? {
      var raw := session.raw.value;
      if LoadReplayBody(session, e) == Some(body) && body != "" {
        var before, after := raw[..r.bodyOffset], raw[r.bodyOffset + r.bodyBytes..];
        assert raw == before + body + after;
      }
      if before, after :| |before| == r.bodyOffset && raw == before + body + after && |body| == r.bodyBytes {
        assert raw[|before|..|before| + |body|] == body;
      }
    }
  }

  // ----- The merge -----

  /** Ingress order, observation time, and GSI (0) before supplements (1). */
  function Key(item: ReplayItem): (nat, nat, nat) {
    match item
    case GsiItem(e) => (e.record.ingressOrder, e.record.relativeUs, 0)
    case SupplementItem(e) => (e.record.ingressOrder, e.record.snapshot.relativeUs, 1)
  }

  predicate KeyLess(a: (nat, nat, nat), b: (nat, nat, nat)) {
    a.0 < b.0 || (a.0 == b.0 && (a.1 < b.1 || (a.1 == b.1 && a.2 < b.2)))
  }

  function With(key: (nat, nat, nat), items: seq<ReplayItem>): seq<ReplayItem> {
    if items == [] then []
    else
      var last := items[|items| - 1];
      With(key, items[..|items| - 1]) + if Key(last) == key then [last] else []
  }

  lemma PrecedesExactly(a: ReplayItem, b: ReplayItem)
    ensures Precedes(a, b) <==> KeyLess(Key(a), Key(b))
  {
  }

  lemma WithMore(key: (nat, nat, nat), items: seq<ReplayItem>, item: ReplayItem)
    ensures With(key, items + [item]) == With(key, items) + if Key(item) == key then [item] else []
  {
    assert (items + [item])[..|items|] == items;
  }

  lemma {:induction false} InsertStable(key: (nat, nat, nat), item: ReplayItem, sorted: seq<ReplayItem>)
    ensures With(key, Insert(item, sorted)) == With(key, sorted + [item])
    decreases |sorted|
  {
    hide With, Precedes, Key;
    if sorted != [] {
      var init, last := sorted[..|sorted| - 1], sorted[|sorted| - 1];
      assert sorted == init + [last];
      if Precedes(item, last) {
        InsertStable(key, item, init);
        PrecedesExactly(item, last);
        hide Insert;
        WithMore(key, sorted, item);
        WithMore(key, init, item);
        WithMore(key, Insert(item, init), last);
        WithMore(key, init, last);
      }
    } else {
      assert sorted + [item] == [item];
    }
  }

  /** In key order, and items with equal keys as they were. */
  ghost predicate StablySorted(sorted: seq<ReplayItem>, items: seq<ReplayItem>) {
    && (forall i, j :: 0 <= i < j < |sorted| ==> !KeyLess(Key(sorted[j]), Key(sorted[i])))
    && forall key :: With(key, sorted) == With(key, items)
  }

  lemma {:induction false} SortIsStable(items: seq<ReplayItem>)
    ensures StablySorted(StableSort(items), items)
    decreases |items|
  {
    var sorted := StableSort(items);
    SortFacts(items);
    forall i, j | 0 <= i < j < |sorted| ensures !KeyLess(Key(sorted[j]), Key(sorted[i])) {
      PrecedesExactly(sorted[j], sorted[i]);
    }
    if items != [] {
      var init, last := items[..|items| - 1], items[|items| - 1];
      SortIsStable(init);
      assert items == init + [last];
      forall key ensures With(key, sorted) == With(key, items) {
        InsertStable(key, last, StableSort(init));
        WithMore(key, StableSort(init), last);
        WithMore(key, init, last);
      }
    }
  }

  lemma {:induction false} WithHolds(key: (nat, nat, nat), items: seq<ReplayItem>)
    requires With(key, items) != []
    ensures exists k :: 0 <= k < |items| && Key(items[k]) == key
  {
    var init, last := items[..|items| - 1], items[|items| - 1];
    if Key(last) != key {
      WithHolds(key, init);
      var k :| 0 <= k < |init| && Key(init[k]) == key;
      assert items[k] == init[k];
    }
  }

  lemma NotAbove(a: seq<ReplayItem>, b: seq<ReplayItem>)
    requires StablySorted(a, b) && a != [] && b != []
    ensures !KeyLess(Key(a[|a| - 1]), Key(b[|b| - 1]))
  {
    var key := Key(b[|b| - 1]);
    assert With(key, a) == With(key, b) != [];
    WithHolds(key, a);
    hide With;
  }

  lemma LastIsWith(items: seq<ReplayItem>)
    ensures items == [] || With(Key(items[|items| - 1]), items) != []
  {
  }

  /** There is only one stable sort. */
  lemma {:induction false} SortedAlike(a: seq<ReplayItem>, b: seq<ReplayItem>)
    requires StablySorted(a, b) && StablySorted(b, a)
    ensures a == b
    decreases |a|
  {
    if a == [] || b == [] {
      LastIsWith(a);
      LastIsWith(b);
    } else {
      var x, y := a[|a| - 1], b[|b| - 1];
      var c, d := a[..|a| - 1], b[..|b| - 1];
      NotAbove(a, b);
      NotAbove(b, a);
      assert Key(x) == Key(y);
      assert With(Key(x), a) == With(Key(x), c) + [x] && With(Key(x), b) == With(Key(x), d) + [y];
      SameBack(With(Key(x), c), x, With(Key(x), d), y);
      forall key ensures With(key, c) == With(key, d) {
        assert With(key, a) == With(key, b);
        var l := if Key(x) == key then [x] else [];
        assert With(key, c) + l == With(key, d) + l;
        SameFront(With(key, c), With(key, d), l);
      }
      hide With;
      SortedAlike(c, d);
      assert a == c + [x] && b == d + [y];
    }
  }

  lemma SameBack(a: seq<ReplayItem>, x: ReplayItem, b: seq<ReplayItem>, y: ReplayItem)
    requires a + [x] == b + [y]
    ensures x == y
  {
    assert x == (a + [x])[|a + [x]| - 1] && y == (b + [y])[|b + [y]| - 1];
  }

  lemma SameFront(a: seq<ReplayItem>, b: seq<ReplayItem>, l: seq<ReplayItem>)
    requires a + l == b + l
    ensures a == b
  {
    assert |a| == |b|;
    assert a == (a + l)[..|a|] && b == (b + l)[..|b|];
  }

  /** A session loads exactly when both timelines do, and then to the one stable sort of both by
      ingress order, observation time and kind. */
  lemma StreamExactly(session: Session, items: seq<ReplayItem>)
    ensures LoadReplayStream(session) == Some(items) <==>
      && LoadTimeline(session).Some? && LoadSupplementaryTimeline(session).Some?
      && StablySorted(items, GsiItems(LoadTimeline(session).value) + SupplementItems(LoadSupplementaryTimeline(session).value))
  {
    hide LoadTimeline, LoadSupplementaryTimeline, With;
    if LoadTimeline(session).Some? && LoadSupplementaryTimeline(session).Some? {
      var all := GsiItems(LoadTimeline(session).value) + SupplementItems(LoadSupplementaryTimeline(session).value);
      SortIsStable(all);
      if StablySorted(items, all) {
        hide StableSort, GsiItems, SupplementItems;
        SortedAlike(items, StableSort(all));
      }
    }
  }

  // ----- Sessions of the older schemas -----

  function OldFields(packed: bool, r: SnapshotRecord): seq<string> {
    [NatText(r.sequence), NatText(r.acceptedTick), NatText(r.bodyCompleteTick), NatText(r.ackSentTick),
     NatText(r.persistCompleteTick), NatText(r.relativeUs)]
    + if packed then [NatText(r.bodyOffset), NatText(r.bodyBytes)] else [NatText(r.bodyBytes), r.bodyFilename]
  }

  function OldRow(packed: bool, r: SnapshotRecord): string { Joined(OldFields(packed, r)) }

  predicate OldFits(packed: bool, r: SnapshotRecord) {
    && SnapshotFits(r.(bodyFilename := "")) && r.ingressOrder == r.sequence
    && if packed then r.bodyFilename == "" else r.bodyOffset == 0 && Plain(r.bodyFilename)
  }

  lemma OldNumbersRead(packed: bool, r: SnapshotRecord)
    requires OldFits(packed, r)
    ensures Stoull(NatText(r.sequence)) == Some(r.sequence) && Stoull(NatText(r.acceptedTick)) == Some(r.acceptedTick)
    ensures Stoull(NatText(r.bodyCompleteTick)) == Some(r.bodyCompleteTick)
    ensures Stoull(NatText(r.ackSentTick)) == Some(r.ackSentTick)
    ensures Stoull(NatText(r.persistCompleteTick)) == Some(r.persistCompleteTick)
    ensures Stoull(NatText(r.relativeUs)) == Some(r.relativeUs)
    ensures Stoull(NatText(r.bodyOffset)) == Some(r.bodyOffset) && Stoull(NatText(r.bodyBytes)) == Some(r.bodyBytes)
  {
    hide NatText, Stoull;
    StoullReads(r.sequence);
    StoullReads(r.acceptedTick);
    StoullReads(r.bodyCompleteTick);
    StoullReads(r.ackSentTick);
    StoullReads(r.persistCompleteTick);
    StoullReads(r.relativeUs);
    StoullReads(r.bodyOffset);
    StoullReads(r.bodyBytes);
  }

  lemma OldInPlace(packed: bool, r: SnapshotRecord)
    requires OldFits(packed, r)
    ensures ShownInPlace(OldFields(packed, r), packed, r)
  {
    OldNumbersRead(packed, r);
    hide Stoull, NatText, SnapshotFits;
  }

  lemma OldCellsShow(packed: bool, r: SnapshotRecord)
    requires OldFits(packed, r)
    ensures FieldsShow(ColumnsOf(Schema(packed, false)), OldFields(packed, r), r)
  {
    var columns, f := ColumnsOf(Schema(packed, false)), OldFields(packed, r);
    OldInPlace(packed, r);
    assert columns == if packed then V2_COLUMNS else V1_COLUMNS;
    CellsInPlace(columns, f, packed, r);
    ColumnsHeld(Schema(packed, false));
    hide AllCells, CellShows, ColumnsOf, ShownInPlace, NatText, SnapshotFits;
  }

  lemma OldFieldsPlain(packed: bool, r: SnapshotRecord)
    requires OldFits(packed, r)
    ensures forall f :: f in OldFields(packed, r) ==> Plain(f)
  {
    NatTextPlain(r.sequence);
    NatTextPlain(r.acceptedTick);
    NatTextPlain(r.bodyCompleteTick);
    NatTextPlain(r.ackSentTick);
    NatTextPlain(r.persistCompleteTick);
    NatTextPlain(r.relativeUs);
    NatTextPlain(r.bodyOffset);
    NatTextPlain(r.bodyBytes);
    hide NatText, Plain;
  }

  /** A row of schema 1 or 2 reads back, with its sequence as ingress order. */
  lemma OldRowRead(packed: bool, r: SnapshotRecord)
    requires OldFits(packed, r)
    ensures ParseTimelineRow(Schema(packed, false), OldRow(packed, r)) == Some(ReplayEntry(r, packed))
    ensures OldRow(packed, r) != "" && '\n' !in OldRow(packed, r)
  {
    var f := OldFields(packed, r);
    OldCellsShow(packed, r);
    OldFieldsPlain(packed, r);
    NatTextPlain(r.sequence);
    assert f[0] == NatText(r.sequence);
    hide NatText, OldFields, FieldsShow, Joined, Fields, ColumnsOf, ParseTimelineRow, OldFits;
    FieldsOfJoined(f);
    JoinedPlain(f);
    JoinedNotEmpty(f);
    TimelineRowExactly(Schema(packed, false), OldRow(packed, r), ReplayEntry(r, packed));
  }

  function OldRows(packed: bool, records: seq<SnapshotRecord>): (rows: seq<string>)
    ensures |rows| == |records| && forall k :: 0 <= k < |rows| ==> rows[k] == OldRow(packed, records[k])
  {
    seq(|records|, k requires 0 <= k < |records| => OldRow(packed, records[k]))
  }

  function OldEntries(packed: bool, records: seq<SnapshotRecord>): (entries: seq<ReplayEntry>)
    ensures |entries| == |records| && forall k :: 0 <= k < |entries| ==> entries[k] == ReplayEntry(records[k], packed)
  {
    seq(|records|, k requires 0 <= k < |records| => ReplayEntry(records[k], packed))
  }

  predicate OldTimeline(packed: bool, records: seq<SnapshotRecord>, session: Session) {
    && session.timeline == Some(FileText(HeaderOf(Schema(packed, false)), OldRows(packed, records)))
    && session.supplementary.None?
    && (forall k :: 0 <= k < |records| ==> OldFits(packed, records[k]))
    && forall i, j :: 0 <= i < j < |records| ==> records[i].sequence < records[j].sequence
  }

  lemma NamePlain(c: TimelineColumn)
    ensures '\n' !in ColumnName(c)
  {
  }

  lemma OldHeaderPlain(packed: bool)
    ensures '\n' !in HeaderOf(Schema(packed, false))
  {
    var names := NamesOf(ColumnsOf(Schema(packed, false)));
    forall c ensures '\n' !in ColumnName(c) {
      NamePlain(c);
    }
    hide ColumnName, ColumnsOf;
    JoinedPlain(names);
  }

  lemma OldTimelineLoads(packed: bool, records: seq<SnapshotRecord>, session: Session)
    requires OldTimeline(packed, records, session)
    ensures LoadTimeline(session) == Some(OldEntries(packed, records))
  {
    hide HeaderOf, OldRow, OldFits, ParseTimelineRow, SchemaOf, FileText, HeaderAndRows, ParseRows;
    var schema, rows, entries := Schema(packed, false), OldRows(packed, records), OldEntries(packed, records);
    OldHeaderPlain(packed);
    forall k | 0 <= k < |rows|
      ensures '\n' !in rows[k] && rows[k] != "" && ParseTimelineRow(schema, rows[k]) == Some(entries[k])
    {
      OldRowRead(packed, records[k]);
    }
    HeadersTold(schema);
    hide OldRows, OldEntries;
    FileRead(HeaderOf(schema), rows);
    ParseRowsReads(TimelineParser(schema), rows, [], entries);
    assert [] + entries == entries;
  }

  lemma OldItemsIncrease(packed: bool, records: seq<SnapshotRecord>, session: Session)
    requires OldTimeline(packed, records, session)
    ensures Increasing(GsiItems(OldEntries(packed, records)))
  {
    hide FileText, HeaderOf, OldRows, SnapshotFits;
    var items := GsiItems(OldEntries(packed, records));
    forall i, j | 0 <= i < j < |items| ensures Order(items[i]) < Order(items[j]) {
      assert OldFits(packed, records[i]) && OldFits(packed, records[j]);
    }
  }

  /** A session of schema 1 or 2 loads to its records in the order of their sequences, and has no supplements. */
  lemma OldSessionLoads(packed: bool, records: seq<SnapshotRecord>, session: Session)
    requires OldTimeline(packed, records, session)
    ensures LoadReplayStream(session) == Some(GsiItems(OldEntries(packed, records)))
  {
    assert session.supplementary.None?;
    hide OldTimeline, LoadTimeline, OldEntries, GsiItems, StableSort, InOrder, Increasing;
    var items := GsiItems(OldEntries(packed, records));
    OldTimelineLoads(packed, records, session);
    OldItemsIncrease(packed, records, session);
    assert items + SupplementItems([]) == items;
    SortFacts(items);
    SortedOnce(StableSort(items), items);
  }

  function Records(log: seq<Pending>): (records: seq<SnapshotRecord>)
    requires forall k :: 0 <= k < |log| ==> log[k].PendingSnapshot?
    ensures |records| == |log| && forall k :: 0 <= k < |log| ==> records[k] == log[k].gsi
  {
    seq(|log|, k requires 0 <= k < |log| => log[k].gsi)
  }

  /** A packed session of schema 2 also loads every body. */
  lemma PackedSessionLoads(log: seq<Pending>, session: Session, extra: string)
    requires WellFormedLog(log) && (forall k :: 0 <= k < |log| ==> log[k].PendingSnapshot?)
    requires OldTimeline(true, Records(log), session) && session.raw == Some(RawOf(log) + extra)
    ensures LoadReplayStream(session) == Some(ItemsOf(log))
    ensures forall k :: 0 <= k < |log| ==> LoadReplayBody(session, ReplayEntry(log[k].gsi, true)) == Some(log[k].body)
  {
    hide WellFormedLog, RawOf, LoadReplayStream, LoadReplayBody, OldTimeline;
    OldSessionLoads(true, Records(log), session);
    forall k | 0 <= k < |log| ensures LoadReplayBody(session, ReplayEntry(log[k].gsi, true)) == Some(log[k].body) {
      BodyLoads(log, session, extra, k);
    }
    assert GsiItems(OldEntries(true, Records(log))) == ItemsOf(log);
  }
}
