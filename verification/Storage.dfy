/** Storage round trip: a log of accepted records, written out and loaded back, is the
    same log in the same order, whatever bytes the bodies hold. */
module Storage {
  import opened Telemetry
  import opened Text
  import opened SessionText
  import opened SupplementaryCounts
  import opened SessionFiles

  /** A queued record; once persisted, with its offset and completion tick filled in. */
  datatype Pending =
    | PendingSnapshot(gsi: SnapshotRecord, body: string)
    | PendingSupplementary(supplement: SupplementaryRecord)

  function PendingOrder(p: Pending): nat {
    match p
    case PendingSnapshot(r, _) => r.ingressOrder
    case PendingSupplementary(r) => r.ingressOrder
  }

  // ----- What a log looks like on disk -----

  function TimelineRows(log: seq<Pending>): seq<string> {
    if log == [] then []
    else TimelineRows(log[..|log| - 1])
         + match log[|log| - 1] case PendingSnapshot(r, _) => [TimelineRow(r)] case PendingSupplementary(_) => []
  }

  function SupplementaryRows(log: seq<Pending>): seq<string> {
    if log == [] then []
    else SupplementaryRows(log[..|log| - 1])
         + match log[|log| - 1] case PendingSnapshot(_, _) => [] case PendingSupplementary(r) => [SupplementaryRow(r)]
  }

  function RawOf(log: seq<Pending>): string {
    if log == [] then ""
    else RawOf(log[..|log| - 1])
         + match log[|log| - 1] case PendingSnapshot(_, body) => body case PendingSupplementary(_) => ""
  }

  function FileText(header: string, rows: seq<string>): string { RowsText([header] + rows) }

  /** The files after a log was persisted; `extra` raw bytes may follow what the rows describe. */
  function FilesOf(log: seq<Pending>, extra: string): Session {
    Session(Some(FileText(TIMELINE_HEADER, TimelineRows(log))),
            Some(FileText(SUPPLEMENTARY_HEADER, SupplementaryRows(log))),
            Some(RawOf(log) + extra), map[])
  }

  // ----- Logs the recorder can produce -----

  predicate SnapshotFits(r: SnapshotRecord) {
    && r.ingressOrder < U64 && r.sequence < U64 && r.acceptedTick < U64 && r.bodyCompleteTick < U64
    && r.ackSentTick < U64 && r.persistCompleteTick < U64 && r.relativeUs < U64 && r.bodyOffset < U64 && r.bodyBytes < U64
    && r.bodyFilename == ""
  }

  predicate SupplementFits(r: SupplementaryRecord) {
    var s := r.snapshot;
    && r.ingressOrder < U64 && r.persistCompleteTick < U64
    && s.sequence < U64 && s.observedTick < U64 && s.relativeUs < U64
    && (s.rosterRevision.Some? ==> s.rosterRevision.value < U64)
    && IntFits(s.teams.ctAlive) && IntFits(s.teams.tAlive) && IntFits(s.teams.ctTotal) && IntFits(s.teams.tTotal)
    && ValidTeamCounts(s.teams)
  }

  predicate Fits(p: Pending) {
    match p
    case PendingSnapshot(r, body) => SnapshotFits(r) && r.bodyBytes == |body|
    case PendingSupplementary(r) => SupplementFits(r)
  }

  /** Values of the source's widths, increasing ingress orders and adjacent offsets. */
  predicate WellFormedLog(log: seq<Pending>) {
    && (forall k :: 0 <= k < |log| ==> Fits(log[k]))
    && (forall i, j :: 0 <= i < j < |log| ==> PendingOrder(log[i]) < PendingOrder(log[j]))
    && (forall k :: 0 <= k < |log| && log[k].PendingSnapshot? ==> log[k].gsi.bodyOffset == |RawOf(log[..k])|)
  }

  // ----- One row -----

  lemma NatTextPlain(n: nat)
    ensures Plain(NatText(n)) && NatText(n) != ""
  {
  }

  lemma TimelineFieldsPlain(r: SnapshotRecord)
    ensures forall f :: f in TimelineFields(r) ==> Plain(f)
  {
  }

  lemma ColumnReads(f: seq<string>, i: nat, n: nat)
    requires i < |f| && f[i] == NatText(n) && n < U64
    ensures Column(f, i) == Some(n)
  {
    StoullReads(n);
    hide NatText, Stoull;
  }

  lemma TimelineFieldsRead(r: SnapshotRecord)
    requires SnapshotFits(r)
    ensures ParseTimelineFields(Schema(true, true), TimelineFields(r)) == Some(ReplayEntry(r, true))
  {
    hide NatText, Column;
    var f := TimelineFields(r);
    ColumnReads(f, 0, r.ingressOrder);
    ColumnReads(f, 1, r.sequence);
    ColumnReads(f, 2, r.acceptedTick);
    ColumnReads(f, 3, r.bodyCompleteTick);
    ColumnReads(f, 4, r.ackSentTick);
    ColumnReads(f, 5, r.persistCompleteTick);
    ColumnReads(f, 6, r.relativeUs);
    ColumnReads(f, 7, r.bodyOffset);
    ColumnReads(f, 8, r.bodyBytes);
    hide TimelineFields;
  }

  lemma JoinedNotEmpty(fields: seq<string>)
    requires fields != [] && fields[0] != ""
    ensures Joined(fields) != ""
  {
  }

  lemma TimelineRowRead(r: SnapshotRecord)
    requires SnapshotFits(r)
    ensures ParseTimelineRow(Schema(true, true), TimelineRow(r)) == Some(ReplayEntry(r, true))
    ensures TimelineRow(r) != "" && '\n' !in TimelineRow(r)
  {
    var f := TimelineFields(r);
    TimelineFieldsPlain(r);
    TimelineFieldsRead(r);
    NatTextPlain(r.ingressOrder);
    hide NatText, ParseTimelineFields, Fields, Joined;
    FieldsOfJoined(f);
    JoinedPlain(f);
    JoinedNotEmpty(f);
  }

  lemma SourceNamePlain(k: SourceKind)
    ensures Plain(SourceName(k))
  {
  }

  lemma OptionalPlain(n: Option<nat>, i: Option<int>)
    ensures Plain(OptionalNat(n)) && Plain(OptionalInt(i))
  {
  }

  lemma SupplementaryFieldsPlain(r: SupplementaryRecord)
    ensures forall f :: f in SupplementaryFields(r) ==> Plain(f)
  {
    var s := r.snapshot;
    forall f | f in SupplementaryFields(r) ensures Plain(f) {
      NatTextPlain(r.ingressOrder);
      NatTextPlain(s.sequence);
      NatTextPlain(s.observedTick);
      NatTextPlain(r.persistCompleteTick);
      NatTextPlain(s.relativeUs);
      SourceNamePlain(s.source);
      OptionalPlain(s.rosterRevision, s.teams.ctAlive);
      OptionalPlain(None, s.teams.tAlive);
      OptionalPlain(None, s.teams.ctTotal);
      OptionalPlain(None, s.teams.tTotal);
      hide NatText, Plain, SourceName, OptionalNat, OptionalInt;
    }
  }

  /** A supplement as it is loaded: the live source is Replay, the recorded one is kept aside. */
  function Reloaded(r: SupplementaryRecord): SupplementaryEntry {
    SupplementaryEntry(r.(snapshot := r.snapshot.(source := Replay)), r.snapshot.source)
  }

  lemma SupplementaryFieldsRead(r: SupplementaryRecord)
    requires SupplementFits(r)
    ensures ParseSupplementaryFields(SupplementaryFields(r)) == Some(Reloaded(r))
  {
    var s := r.snapshot;
    StoullReads(r.ingressOrder);
    StoullReads(s.sequence);
    StoullReads(s.observedTick);
    StoullReads(r.persistCompleteTick);
    StoullReads(s.relativeUs);
    SourceNamesRoundTrip(s.source, SourceName(s.source));
    OptionalsRead(s.rosterRevision, s.teams.ctAlive);
    OptionalsRead(None, s.teams.tAlive);
    OptionalsRead(None, s.teams.ctTotal);
    OptionalsRead(None, s.teams.tTotal);
    hide NatText, Stoull, ParseOptionalNat, ParseOptionalInt, OptionalNat, OptionalInt, SourceName, SourceFromName,
         ValidTeamCounts;
  }

  lemma SupplementaryRowRead(r: SupplementaryRecord)
    requires SupplementFits(r)
    ensures ParseSupplementaryRow(SupplementaryRow(r)) == Some(Reloaded(r))
    ensures SupplementaryRow(r) != "" && '\n' !in SupplementaryRow(r)
  {
    var f := SupplementaryFields(r);
    SupplementaryFieldsPlain(r);
    SupplementaryFieldsRead(r);
    NatTextPlain(r.ingressOrder);
    hide NatText, ParseSupplementaryFields, Fields, Joined, SupplementFits, OptionalNat, OptionalInt, SourceName;
    FieldsOfJoined(f);
    JoinedPlain(f);
    JoinedNotEmpty(f);
  }

  // ----- Whole files -----

  function GsiEntries(log: seq<Pending>): seq<ReplayEntry> {
    if log == [] then []
    else GsiEntries(log[..|log| - 1])
         + match log[|log| - 1] case PendingSnapshot(r, _) => [ReplayEntry(r, true)] case PendingSupplementary(_) => []
  }

  function SupplementEntries(log: seq<Pending>): seq<SupplementaryEntry> {
    if log == [] then []
    else SupplementEntries(log[..|log| - 1])
         + match log[|log| - 1] case PendingSnapshot(_, _) => [] case PendingSupplementary(r) => [Reloaded(r)]
  }

  lemma TimePlain()
    ensures Plain("ingress_order") && Plain("sequence") && Plain("relative_us") && Plain("persist_complete_tick")
  {
  }

  lemma TimelineColumnsPlain()
    ensures forall f :: f in TIMELINE_COLUMNS ==> Plain(f)
  {
    TimePlain();
    assert Plain("accepted_tick") && Plain("body_complete_tick") && Plain("ack_sent_tick")
           && Plain("body_offset") && Plain("body_bytes");
    hide Plain;
  }

  lemma SupplementaryColumnsPlain()
    ensures forall f :: f in SUPPLEMENTARY_COLUMNS ==> Plain(f)
  {
    TimePlain();
    assert Plain("observed_tick") && Plain("source") && Plain("roster_revision")
           && Plain("ct_alive") && Plain("t_alive") && Plain("ct_total") && Plain("t_total");
    hide Plain;
  }

  lemma HeadersReadable()
    ensures SchemaOf(TIMELINE_HEADER) == Schema(true, true)
    ensures '\n' !in TIMELINE_HEADER && '\n' !in SUPPLEMENTARY_HEADER
  {
    TimelineColumnsPlain();
    SupplementaryColumnsPlain();
    JoinedPlain(TIMELINE_COLUMNS);
    JoinedPlain(SUPPLEMENTARY_COLUMNS);
    assert TIMELINE_COLUMNS[7] == "body_offset";
    ContainsField(TIMELINE_COLUMNS, 7);
    HeaderStart();
    hide Contains, Joined;
  }

  lemma HeaderStart()
    ensures "ingress_order\t" <= TIMELINE_HEADER
  {
  }

  lemma FileRead(header: string, rows: seq<string>)
    requires '\n' !in header && forall r :: r in rows ==> '\n' !in r
    ensures HeaderAndRows(FileText(header, rows)) == (header, rows)
  {
    LinesOfRows([header] + rows);
  }

  lemma {:induction false} TimelineRowsRead(log: seq<Pending>)
    requires forall k :: 0 <= k < |log| ==> Fits(log[k])
    ensures
      var rows, entries := TimelineRows(log), GsiEntries(log);
      && |rows| == |entries|
      && forall k :: 0 <= k < |rows| ==>
           '\n' !in rows[k] && rows[k] != "" && ParseTimelineRow(Schema(true, true), rows[k]) == Some(entries[k])
  {
    if log != [] {
      TimelineRowsRead(log[..|log| - 1]);
      var last := log[|log| - 1];
      if last.PendingSnapshot? {
        TimelineRowRead(last.gsi);
      }
      hide ParseTimelineRow, TimelineRow;
    }
  }

  lemma {:induction false} SupplementaryRowsRead(log: seq<Pending>)
    requires forall k :: 0 <= k < |log| ==> Fits(log[k])
    ensures
      var rows, entries := SupplementaryRows(log), SupplementEntries(log);
      && |rows| == |entries|
      && forall k :: 0 <= k < |rows| ==>
           '\n' !in rows[k] && rows[k] != "" && ParseSupplementaryRow(rows[k]) == Some(entries[k])
  {
    if log != [] {
      SupplementaryRowsRead(log[..|log| - 1]);
      var last := log[|log| - 1];
      if last.PendingSupplementary? {
        SupplementaryRowRead(last.supplement);
      }
      hide ParseSupplementaryRow, SupplementaryRow, Reloaded;
    }
  }

  lemma TimelineFileRead(log: seq<Pending>, extra: string)
    requires forall k :: 0 <= k < |log| ==> Fits(log[k])
    ensures LoadTimeline(FilesOf(log, extra)) == ParseRows(TimelineParser(Schema(true, true)), TimelineRows(log), [])
  {
    TimelineRowsRead(log);
    hide TimelineRows, GsiEntries, ParseTimelineRow, RawOf, SupplementaryRows, FileText, ParseRows, HeaderAndRows, SchemaOf,
         TIMELINE_HEADER, SUPPLEMENTARY_HEADER, Fits, TimelineParser;
    HeadersReadable();
    FileRead(TIMELINE_HEADER, TimelineRows(log));
  }

  lemma TimelineLoads(log: seq<Pending>, extra: string)
    requires WellFormedLog(log)
    ensures LoadTimeline(FilesOf(log, extra)) == Some(GsiEntries(log))
  {
    hide WellFormedLog, Fits, TimelineRows, GsiEntries, ParseTimelineRow, ParseRows, FilesOf, LoadTimeline;
    FitsAll(log);
    TimelineFileRead(log, extra);
    TimelineRowsRead(log);
    var rows, entries := TimelineRows(log), GsiEntries(log);
    ParseRowsReads(TimelineParser(Schema(true, true)), rows, [], entries);
    assert [] + entries == entries;
  }

  lemma FitsAll(log: seq<Pending>)
    requires WellFormedLog(log)
    ensures forall k :: 0 <= k < |log| ==> Fits(log[k])
  {
  }

  lemma SupplementaryFileRead(log: seq<Pending>, extra: string)
    requires forall k :: 0 <= k < |log| ==> Fits(log[k])
    ensures LoadSupplementaryTimeline(FilesOf(log, extra)) == ParseRows(ParseSupplementaryRow, SupplementaryRows(log), [])
  {
    SupplementaryRowsRead(log);
    hide TimelineRows, SupplementEntries, ParseSupplementaryRow, RawOf, SupplementaryRows, FileText, ParseRows, HeaderAndRows,
         TIMELINE_HEADER, SUPPLEMENTARY_HEADER, Fits;
    HeadersReadable();
    FileRead(SUPPLEMENTARY_HEADER, SupplementaryRows(log));
  }

  lemma SupplementaryLoads(log: seq<Pending>, extra: string)
    requires WellFormedLog(log)
    ensures LoadSupplementaryTimeline(FilesOf(log, extra)) == Some(SupplementEntries(log))
  {
    hide WellFormedLog, Fits, SupplementaryRows, SupplementEntries, ParseSupplementaryRow, ParseRows, FilesOf,
         LoadSupplementaryTimeline;
    FitsAll(log);
    SupplementaryFileRead(log, extra);
    SupplementaryRowsRead(log);
    var rows, entries := SupplementaryRows(log), SupplementEntries(log);
    ParseRowsReads(ParseSupplementaryRow, rows, [], entries);
    assert [] + entries == entries;
  }

  // ----- The merge is the acceptance order -----

  function ItemOf(p: Pending): ReplayItem {
    match p
    case PendingSnapshot(r, _) => GsiItem(ReplayEntry(r, true))
    case PendingSupplementary(r) => SupplementItem(Reloaded(r))
  }

  function ItemsOf(log: seq<Pending>): (r: seq<ReplayItem>)
    ensures |r| == |log| && forall k :: 0 <= k < |r| ==> r[k] == ItemOf(log[k])
  {
    seq(|log|, k requires 0 <= k < |log| => ItemOf(log[k]))
  }

  predicate Increasing(items: seq<ReplayItem>) {
    forall i, j :: 0 <= i < j < |items| ==> Order(items[i]) < Order(items[j])
  }

  /** No item comes before an earlier one. */
  predicate InOrder(items: seq<ReplayItem>) {
    forall i, j :: 0 <= i < j < |items| ==> !Precedes(items[j], items[i])
  }

  lemma {:induction false} InsertKeeps(item: ReplayItem, sorted: seq<ReplayItem>)
    ensures multiset(Insert(item, sorted)) == multiset(sorted) + multiset{item}
    decreases |sorted|
  {
    if sorted != [] {
      var init, last := sorted[..|sorted| - 1], sorted[|sorted| - 1];
      assert sorted == init + [last];
      if Precedes(item, last) {
        InsertKeeps(item, init);
      }
    }
  }

  lemma {:induction false} InsertSorts(item: ReplayItem, sorted: seq<ReplayItem>)
    requires InOrder(sorted)
    ensures InOrder(Insert(item, sorted))
    decreases |sorted|
  {
    if sorted != [] {
      var init, last := sorted[..|sorted| - 1], sorted[|sorted| - 1];
      if Precedes(item, last) {
        InsertSorts(item, init);
        InsertKeeps(item, init);
        var r := Insert(item, init);
        forall k | 0 <= k < |r| ensures !Precedes(last, r[k]) {
          assert r[k] in multiset(r);
          assert r[k] == item || r[k] in init;
        }
        assert Insert(item, sorted) == r + [last];
      } else {
        forall k | 0 <= k < |sorted| ensures !Precedes(item, sorted[k]) {
          assert !Precedes(last, sorted[k]) || k == |sorted| - 1;
        }
      }
    }
  }

  /** The merged sort is a sorted permutation of what was loaded. */
  lemma {:induction false} SortFacts(items: seq<ReplayItem>)
    ensures InOrder(StableSort(items)) && multiset(StableSort(items)) == multiset(items)
    decreases |items|
  {
    if items != [] {
      var init, last := items[..|items| - 1], items[|items| - 1];
      assert items == init + [last];
      SortFacts(init);
      InsertSorts(last, StableSort(init));
      InsertKeeps(last, StableSort(init));
    }
  }

  /** With distinct ingress orders there is one sorted permutation: no tie is ever broken. */
  lemma {:induction false} SortedOnce(sorted: seq<ReplayItem>, items: seq<ReplayItem>)
    requires InOrder(sorted) && Increasing(items) && multiset(sorted) == multiset(items)
    ensures sorted == items
    decreases |items|
  {
    hide InOrder, Increasing;
    SameLength(sorted, items);
    if items != [] {
      var n := |items| - 1;
      SameLast(sorted, items);
      StripLast(sorted);
      StripLast(items);
      PrefixesInOrder(sorted, items, n);
      SortedOnce(sorted[..n], items[..n]);
      Rejoin(sorted, items);
    }
  }

  lemma SameLength(a: seq<ReplayItem>, b: seq<ReplayItem>)
    requires multiset(a) == multiset(b)
    ensures |a| == |b|
  {
    assert |multiset(a)| == |a| && |multiset(b)| == |b|;
  }

  lemma Rejoin(a: seq<ReplayItem>, b: seq<ReplayItem>)
    requires |a| == |b| > 0 && a[..|a| - 1] == b[..|a| - 1] && a[|a| - 1] == b[|a| - 1]
    ensures a == b
  {
  }

  lemma PrefixesInOrder(sorted: seq<ReplayItem>, items: seq<ReplayItem>, n: nat)
    requires InOrder(sorted) && Increasing(items) && n <= |sorted| && n <= |items|
    ensures InOrder(sorted[..n]) && Increasing(items[..n])
  {
  }

  lemma SameLast(sorted: seq<ReplayItem>, items: seq<ReplayItem>)
    requires InOrder(sorted) && Increasing(items) && multiset(sorted) == multiset(items)
    requires |sorted| == |items| > 0
    ensures sorted[|items| - 1] == items[|items| - 1]
  {
    var n := |items| - 1;
    var a, b := sorted[n], items[n];
    assert a in multiset(items) && b in multiset(sorted);
    var i :| 0 <= i < |items| && items[i] == a;
    var j :| 0 <= j < |sorted| && sorted[j] == b;
    assert i < n ==> Order(a) < Order(b);
    assert j < n ==> !Precedes(a, b);
  }

  lemma StripLast(items: seq<ReplayItem>)
    requires items != []
    ensures multiset(items[..|items| - 1]) == multiset(items) - multiset{items[|items| - 1]}
  {
    assert items == items[..|items| - 1] + [items[|items| - 1]];
  }

  lemma {:induction false} LogItems(log: seq<Pending>)
    ensures multiset(GsiItems(GsiEntries(log)) + SupplementItems(SupplementEntries(log))) == multiset(ItemsOf(log))
  {
    if log != [] {
      var init, last := log[..|log| - 1], log[|log| - 1];
      LogItems(init);
      LogGrows(init, last);
      assert log == init + [last];
      hide GsiItems, SupplementItems, GsiEntries, SupplementEntries, ItemsOf;
      OneMoreItem(GsiItems(GsiEntries(init)), SupplementItems(SupplementEntries(init)), ItemOf(last));
    }
  }

  lemma OneMoreItem(a: seq<ReplayItem>, b: seq<ReplayItem>, x: ReplayItem)
    ensures multiset(a + [x] + b) == multiset(a + b) + multiset{x} == multiset(a + (b + [x]))
  {
  }

  lemma LogGrows(log: seq<Pending>, p: Pending)
    ensures ItemsOf(log + [p]) == ItemsOf(log) + [ItemOf(p)]
    ensures p.PendingSnapshot? ==>
      GsiItems(GsiEntries(log + [p])) == GsiItems(GsiEntries(log)) + [ItemOf(p)]
      && SupplementEntries(log + [p]) == SupplementEntries(log)
    ensures p.PendingSupplementary? ==>
      SupplementItems(SupplementEntries(log + [p])) == SupplementItems(SupplementEntries(log)) + [ItemOf(p)]
      && GsiEntries(log + [p]) == GsiEntries(log)
  {
    assert (log + [p])[..|log|] == log;
    hide Reloaded;
  }

  lemma MergedOrder(log: seq<Pending>)
    requires WellFormedLog(log)
    ensures StableSort(GsiItems(GsiEntries(log)) + SupplementItems(SupplementEntries(log))) == ItemsOf(log)
  {
    var all := GsiItems(GsiEntries(log)) + SupplementItems(SupplementEntries(log));
    LogItems(log);
    SortFacts(all);
    forall i, j | 0 <= i < j < |log| ensures Order(ItemsOf(log)[i]) < Order(ItemsOf(log)[j]) {
      assert PendingOrder(log[i]) < PendingOrder(log[j]);
    }
    hide StableSort, GsiEntries, SupplementEntries, GsiItems, SupplementItems, InOrder, WellFormedLog;
    SortedOnce(StableSort(all), ItemsOf(log));
  }

  // ----- Bodies -----

  lemma {:induction false} RawPrefix(log: seq<Pending>, k: nat)
    requires k < |log| && log[k].PendingSnapshot?
    ensures RawOf(log[..k]) + log[k].body <= RawOf(log)
    decreases |log|
  {
    var init := log[..|log| - 1];
    if k == |log| - 1 {
      assert log[..k] == init;
    } else {
      assert init[..k] == log[..k] && init[k] == log[k];
      RawPrefix(init, k);
    }
  }

  lemma BodyLoads(log: seq<Pending>, session: Session, extra: string, k: nat)
    requires WellFormedLog(log) && k < |log| && log[k].PendingSnapshot? && session.raw == Some(RawOf(log) + extra)
    ensures LoadReplayBody(session, ReplayEntry(log[k].gsi, true)) == Some(log[k].body)
  {
    hide WellFormedLog, RawOf, LoadReplayBody;
    RawPrefix(log, k);
    OffsetKnown(log, k);
    var before, body := RawOf(log[..k]), log[k].body;
    Slice(before, body, RawOf(log), extra);
    SliceLoads(session, log[k].gsi, RawOf(log) + extra, body);
  }

  lemma FileBody(log: seq<Pending>, extra: string, k: nat)
    requires WellFormedLog(log) && k < |log| && log[k].PendingSnapshot?
    ensures LoadReplayBody(FilesOf(log, extra), ReplayEntry(log[k].gsi, true)) == Some(log[k].body)
  {
    hide WellFormedLog, RawOf, FileText, LoadReplayBody, TimelineRows, SupplementaryRows, TIMELINE_HEADER, SUPPLEMENTARY_HEADER;
    BodyLoads(log, FilesOf(log, extra), extra, k);
  }

  lemma OffsetKnown(log: seq<Pending>, k: nat)
    requires WellFormedLog(log) && k < |log| && log[k].PendingSnapshot?
    ensures log[k].gsi.bodyOffset == |RawOf(log[..k])| && log[k].gsi.bodyBytes == |log[k].body|
  {
  }

  lemma SliceLoads(session: Session, r: SnapshotRecord, raw: string, body: string)
    requires session.raw == Some(raw) && r.bodyBytes == |body|
    requires r.bodyOffset + |body| <= |raw| && raw[r.bodyOffset..r.bodyOffset + |body|] == body
    ensures LoadReplayBody(session, ReplayEntry(r, true)) == Some(body)
  {
  }

  lemma Slice(before: string, body: string, raw: string, extra: string)
    requires before + body <= raw
    ensures |before| + |body| <= |raw + extra| && (raw + extra)[|before|..|before| + |body|] == body
  {
  }

  /** Everything loads back in acceptance order: records, bodies and recorded sources. */
  lemma StorageRoundTrip(log: seq<Pending>, extra: string)
    requires WellFormedLog(log)
    ensures LoadReplayStream(FilesOf(log, extra)) == Some(ItemsOf(log))
    ensures forall k :: 0 <= k < |log| && log[k].PendingSnapshot? ==>
      LoadReplayBody(FilesOf(log, extra), ReplayEntry(log[k].gsi, true)) == Some(log[k].body)
  {
    TimelineLoads(log, extra);
    SupplementaryLoads(log, extra);
    MergedOrder(log);
    forall k | 0 <= k < |log| && log[k].PendingSnapshot?
      ensures LoadReplayBody(FilesOf(log, extra), ReplayEntry(log[k].gsi, true)) == Some(log[k].body)
    {
      FileBody(log, extra, k);
    }
    hide WellFormedLog, FilesOf, LoadTimeline, LoadSupplementaryTimeline, StableSort, LoadReplayBody, ItemsOf;
  }
}
