/**
 The stored labels: the upsert rule of `save_outcomes` and the read rule of `fetch_final_labels`. A read of final
 labels stays the same under every later write whose run is not earlier than the read, exactly when the write is
 also stamped after it; while a label may still change, its listed time only moves to the earliest sighting.
 */
module OutcomeStore {
  import opened Texts
  import opened Ticks
  import opened Labeling

  const UPSERT_CHUNK_SIZE := 1000

  datatype Key = Key(venue: Venue, listingId: string, version: string)

  datatype Stored = Stored(row: Row, labeledAt: int)

  type Table = map<Key, Stored>

  datatype Entry = Entry(key: Key, row: Row)

  /**
   What one run brings to its writes: the final cutoff, the start of its transaction (an inserted row is stamped by
   the database with it), and the wall clock when a chunk's statement is built (an updated row is stamped with that).
   */
  datatype Run = Run(finalCutoff: int, startedAt: int, clock: nat -> int)

  /** The update's WHERE: the earliest sighting wins, and a final label is kept. */
  predicate Rewrites(s: Stored, row: Row, finalCutoff: int) {
    s.row.listedAt >= row.listedAt && s.row.availableAt > finalCutoff
  }

  function Upserted(t: Table, e: Entry, run: Run, chunk: nat): Table {
    if e.key !in t then t[e.key := Stored(e.row, run.startedAt)]
    else if Rewrites(t[e.key], e.row, run.finalCutoff) then t[e.key := Stored(e.row, run.clock(chunk))]
    else t
  }

  predicate Writes(t: Table, e: Entry, run: Run) {
    e.key !in t || Rewrites(t[e.key], e.row, run.finalCutoff)
  }

  /** One statement over a chunk; rows of one chunk have distinct keys, else the statement raises. */
  function UpsertedAll(t: Table, entries: seq<Entry>, run: Run, chunk: nat): Table {
    if entries == [] then t else Upserted(UpsertedAll(t, entries[..|entries| - 1], run, chunk), entries[|entries| - 1], run, chunk)
  }

  function CountWritten(t: Table, entries: seq<Entry>, run: Run, chunk: nat): nat {
    if entries == [] then 0
    else
      var front, last := entries[..|entries| - 1], entries[|entries| - 1];
      CountWritten(t, front, run, chunk) + if Writes(UpsertedAll(t, front, run, chunk), last, run) then 1 else 0
  }

  predicate DistinctKeys(entries: seq<Entry>) {
    forall i, j :: 0 <= i < j < |entries| ==> entries[i].key != entries[j].key
  }

  function ChunkOf(entries: seq<Entry>, chunk: nat): seq<Entry> {
    var start := chunk * UPSERT_CHUNK_SIZE;
    var end := start + UPSERT_CHUNK_SIZE;
    if start >= |entries| then [] else if end >= |entries| then entries[start..] else entries[start..end]
  }

  /** The first `chunks` statements of a save. */
  function AfterChunks(t: Table, entries: seq<Entry>, run: Run, chunks: nat): Table {
    if chunks == 0 then t
    else UpsertedAll(AfterChunks(t, entries, run, chunks - 1), ChunkOf(entries, chunks - 1), run, chunks - 1)
  }

  function WrittenAfter(t: Table, entries: seq<Entry>, run: Run, chunks: nat): nat {
    if chunks == 0 then 0
    else
      WrittenAfter(t, entries, run, chunks - 1)
      + CountWritten(AfterChunks(t, entries, run, chunks - 1), ChunkOf(entries, chunks - 1), run, chunks - 1)
  }

  function ChunkCount(entries: seq<Entry>): nat {
    (|entries| + UPSERT_CHUNK_SIZE - 1) / UPSERT_CHUNK_SIZE
  }

  predicate AllDistinct(entries: seq<Entry>) {
    forall chunk: nat :: chunk < ChunkCount(entries) ==> DistinctKeys(ChunkOf(entries, chunk))
  }

  /** What a whole save does: all of its chunks in one transaction. */
  function Saved(t: Table, entries: seq<Entry>, run: Run): Table {
    if AllDistinct(entries) then AfterChunks(t, entries, run, ChunkCount(entries)) else t
  }

  // ---- What a save leaves ----

  /** The entries written one by one, each as part of its chunk. */
  function AfterEntries(t: Table, entries: seq<Entry>, run: Run, n: nat): Table
    requires n <= |entries|
  {
    if n == 0 then t else Upserted(AfterEntries(t, entries, run, n - 1), entries[n - 1], run, (n - 1) / UPSERT_CHUNK_SIZE)
  }

  /** How many of the first entries a save finds missing or rewrites. */
  function WrittenOf(t: Table, entries: seq<Entry>, run: Run, n: nat): nat
    requires n <= |entries|
  {
    if n == 0 then 0 else WrittenOf(t, entries, run, n - 1) + if Writes(t, entries[n - 1], run) then 1 else 0
  }

  function EndOf(entries: seq<Entry>, chunks: nat): (end: nat)
    ensures end <= |entries|
  {
    if chunks * UPSERT_CHUNK_SIZE < |entries| then chunks * UPSERT_CHUNK_SIZE else |entries|
  }

  lemma ChunkIsSlice(entries: seq<Entry>, chunk: nat)
    ensures EndOf(entries, chunk) <= EndOf(entries, chunk + 1)
    ensures ChunkOf(entries, chunk) == entries[EndOf(entries, chunk)..EndOf(entries, chunk + 1)]
  {
  }

  lemma InChunk(chunk: nat, i: nat)
    requires chunk * UPSERT_CHUNK_SIZE <= i < (chunk + 1) * UPSERT_CHUNK_SIZE
    ensures i / UPSERT_CHUNK_SIZE == chunk
  {
  }

  /** A chunk after the entries before it is the entries up to its end. */
  lemma {:induction false} ChunkIsEntries(t: Table, entries: seq<Entry>, run: Run, chunk: nat, n: nat)
    requires EndOf(entries, chunk) + n <= EndOf(entries, chunk + 1)
    ensures var start := EndOf(entries, chunk);
      UpsertedAll(AfterEntries(t, entries, run, start), entries[start..start + n], run, chunk) == AfterEntries(t, entries, run, start + n)
  {
    hide Upserted;
    if n > 0 {
      var start := EndOf(entries, chunk);
      ChunkIsEntries(t, entries, run, chunk, n - 1);
      assert entries[start..start + n][..n - 1] == entries[start..start + n - 1];
      InChunk(chunk, start + n - 1);
    }
  }

  lemma {:induction false} ChunksAreEntries(t: Table, entries: seq<Entry>, run: Run, chunks: nat)
    ensures AfterChunks(t, entries, run, chunks) == AfterEntries(t, entries, run, EndOf(entries, chunks))
  {
    hide UpsertedAll;
    hide AfterEntries;
    if chunks == 0 {
      NoEntries(t, entries, run);
    } else {
      ChunksAreEntries(t, entries, run, chunks - 1);
      ChunkIsSlice(entries, chunks - 1);
      ChunkIsEntries(t, entries, run, chunks - 1, EndOf(entries, chunks) - EndOf(entries, chunks - 1));
      hide ChunkOf;
      hide EndOf;
    }
  }

  lemma NoEntries(t: Table, entries: seq<Entry>, run: Run)
    ensures EndOf(entries, 0) == 0 && AfterEntries(t, entries, run, 0) == t && WrittenOf(t, entries, run, 0) == 0
  {
  }

  lemma AllChunks(entries: seq<Entry>)
    ensures EndOf(entries, ChunkCount(entries)) == |entries|
  {
  }

  /** What a table holds for a key after an entry for it is written: the first row, or the row that replaces it, or what it had. */
  function StoredFor(t: Table, e: Entry, run: Run, chunk: nat): Stored {
    if e.key !in t then Stored(e.row, run.startedAt)
    else if t[e.key].row.listedAt >= e.row.listedAt && t[e.key].row.availableAt > run.finalCutoff then Stored(e.row, run.clock(chunk))
    else t[e.key]
  }

  lemma {:induction false} KeyUntouched(t: Table, entries: seq<Entry>, run: Run, n: nat, k: Key)
    requires n <= |entries| && forall i :: 0 <= i < n ==> entries[i].key != k
    ensures var t' := AfterEntries(t, entries, run, n); (k in t' <==> k in t) && (k in t ==> t'[k] == t[k])
  {
    if n > 0 {
      KeyUntouched(t, entries, run, n - 1, k);
    }
  }

  lemma {:induction false} EntryStored(t: Table, entries: seq<Entry>, run: Run, n: nat, i: nat)
    requires DistinctKeys(entries) && i < n <= |entries|
    ensures var t' := AfterEntries(t, entries, run, n);
      entries[i].key in t' && t'[entries[i].key] == StoredFor(t, entries[i], run, i / UPSERT_CHUNK_SIZE)
  {
    if i == n - 1 {
      KeyUntouched(t, entries, run, n - 1, entries[i].key);
    } else {
      EntryStored(t, entries, run, n - 1, i);
      hide StoredFor;
    }
  }

  /**
   What a save of distinct labels leaves: each of them under its key, if it is new or replaces a label seen no earlier that
   is not final yet, else the label there was; and every other key as it was. No chunk is left out.
   */
  lemma SavedIs(t: Table, entries: seq<Entry>, run: Run)
    requires DistinctKeys(entries)
    ensures var t' := Saved(t, entries, run);
      && AllDistinct(entries)
      && (forall i :: 0 <= i < |entries| ==>
            entries[i].key in t' && t'[entries[i].key] == StoredFor(t, entries[i], run, i / UPSERT_CHUNK_SIZE))
      && (forall k :: (forall i :: 0 <= i < |entries| ==> entries[i].key != k) ==> (k in t' <==> k in t) && (k in t ==> t'[k] == t[k]))
  {
    hide AfterEntries;
    hide AfterChunks;
    hide StoredFor;
    forall chunk: nat ensures DistinctKeys(ChunkOf(entries, chunk)) {
      ChunkIsSlice(entries, chunk);
    }
    hide ChunkOf;
    ChunksAreEntries(t, entries, run, ChunkCount(entries));
    AllChunks(entries);
    forall i | 0 <= i < |entries|
      ensures var t' := Saved(t, entries, run);
        entries[i].key in t' && t'[entries[i].key] == StoredFor(t, entries[i], run, i / UPSERT_CHUNK_SIZE)
    {
      EntryStored(t, entries, run, |entries|, i);
    }
    forall k: Key | forall i :: 0 <= i < |entries| ==> entries[i].key != k
      ensures var t' := Saved(t, entries, run); (k in t' <==> k in t) && (k in t ==> t'[k] == t[k])
    {
      KeyUntouched(t, entries, run, |entries|, k);
    }
  }

  lemma CountsLast(t: Table, front: seq<Entry>, last: Entry, run: Run, chunk: nat)
    ensures CountWritten(t, front + [last], run, chunk)
      == CountWritten(t, front, run, chunk) + if Writes(UpsertedAll(t, front, run, chunk), last, run) then 1 else 0
  {
    assert (front + [last])[..|front|] == front;
  }

  /** The entries before it leave an entry's key as it was. */
  lemma NotWrittenYet(t: Table, entries: seq<Entry>, run: Run, n: nat)
    requires DistinctKeys(entries) && n < |entries|
    ensures Writes(AfterEntries(t, entries, run, n), entries[n], run) <==> Writes(t, entries[n], run)
  {
    KeyUntouched(t, entries, run, n, entries[n].key);
    hide AfterEntries;
  }

  lemma WrittenOneMore(t: Table, entries: seq<Entry>, run: Run, n: nat)
    requires n < |entries|
    ensures WrittenOf(t, entries, run, n + 1) == WrittenOf(t, entries, run, n) + if Writes(t, entries[n], run) then 1 else 0
  {
  }

  lemma NoneCounted(t: Table, run: Run, chunk: nat)
    ensures CountWritten(t, [], run, chunk) == 0
  {
  }

  lemma {:induction false} CountedOnce(t: Table, entries: seq<Entry>, run: Run, chunk: nat, n: nat)
    requires DistinctKeys(entries) && EndOf(entries, chunk) + n <= EndOf(entries, chunk + 1)
    ensures var start := EndOf(entries, chunk);
      WrittenOf(t, entries, run, start) + CountWritten(AfterEntries(t, entries, run, start), entries[start..start + n], run, chunk)
        == WrittenOf(t, entries, run, start + n)
  {
    hide *;
    var start := EndOf(entries, chunk);
    if n == 0 {
      assert entries[start..start] == [];
      NoneCounted(AfterEntries(t, entries, run, start), run, chunk);
    } else {
      CountedOnce(t, entries, run, chunk, n - 1);
      var front, last := entries[start..start + n - 1], entries[start + n - 1];
      CountsLast(AfterEntries(t, entries, run, start), front, last, run, chunk);
      assert entries[start..start + n] == front + [last];
      ChunkIsEntries(t, entries, run, chunk, n - 1);
      NotWrittenYet(t, entries, run, start + n - 1);
      WrittenOneMore(t, entries, run, start + n - 1);
    }
  }

  /** The number a save returns: how many of the labels were missing, or replaced the one there was. */
  lemma {:induction false} SavedCounts(t: Table, entries: seq<Entry>, run: Run, chunks: nat)
    requires DistinctKeys(entries)
    ensures WrittenAfter(t, entries, run, chunks) == WrittenOf(t, entries, run, EndOf(entries, chunks))
    ensures EndOf(entries, ChunkCount(entries)) == |entries|
  {
    hide CountWritten;
    hide AfterEntries;
    hide AfterChunks;
    hide ChunkOf;
    hide EndOf;
    hide WrittenOf;
    hide DistinctKeys;
    AllChunks(entries);
    NoEntries(t, entries, run);
    if chunks > 0 {
      SavedCounts(t, entries, run, chunks - 1);
      ChunksAreEntries(t, entries, run, chunks - 1);
      ChunkIsSlice(entries, chunks - 1);
      CountedOnce(t, entries, run, chunks - 1, EndOf(entries, chunks) - EndOf(entries, chunks - 1));
    }
  }

  class OutcomeTable {
    var table: Table

    constructor ()
      ensures table == map[]
    {
      table := map[];
    }

    /** `save_outcomes`; None when a statement raises, and then nothing is committed. */
    method SaveOutcomes(entries: seq<Entry>, run: Run) returns (written: Option<nat>)
      modifies this
      ensures table == Saved(old(table), entries, run)
      ensures written == if AllDistinct(entries) then Some(WrittenAfter(old(table), entries, run, ChunkCount(entries))) else None
    {
      hide ChunkOf;
      hide UpsertedAll;
      hide CountWritten;
      var session, total := table, 0;
      var chunk: nat := 0;
      while chunk < ChunkCount(entries)
        invariant chunk <= ChunkCount(entries) && table == old(table)
        invariant session == AfterChunks(table, entries, run, chunk) && total == WrittenAfter(table, entries, run, chunk)
        invariant forall c: nat :: c < chunk ==> DistinctKeys(ChunkOf(entries, c))
      {
        var rows := ChunkOf(entries, chunk);
        if !DistinctKeys(rows) {
          assert !AllDistinct(entries);
          return None;
        }
        var count;
        session, count := UpsertChunk(session, rows, run, chunk);
        total := total + count;
        chunk := chunk + 1;
      }
      assert AllDistinct(entries);
      table := session;
      written := Some(total);
    }
  }

  method UpsertChunk(t: Table, rows: seq<Entry>, run: Run, chunk: nat) returns (t': Table, count: nat)
    ensures t' == UpsertedAll(t, rows, run, chunk) && count == CountWritten(t, rows, run, chunk)
  {
    t', count := t, 0;
    for i := 0 to |rows|
      invariant t' == UpsertedAll(t, rows[..i], run, chunk) && count == CountWritten(t, rows[..i], run, chunk)
    {
      assert rows[..i + 1][..i] == rows[..i];
      var e := rows[i];
      if e.key !in t' {
        t' := t'[e.key := Stored(e.row, run.startedAt)];
        count := count + 1;
      } else if t'[e.key].row.listedAt >= e.row.listedAt && t'[e.key].row.availableAt > run.finalCutoff {
        t' := t'[e.key := Stored(e.row, run.clock(chunk))];
        count := count + 1;
      }
    }
    assert rows[..|rows|] == rows;
  }

  // ---- Reading final labels ----

  /** `final_before`. */
  function FinalBefore(asOf: int, settleSeconds: nat, reviseSeconds: nat): int {
    asOf - 1000 * (settleSeconds + reviseSeconds)
  }

  datatype Read = Read(venue: Venue, version: string, asOf: int, cutoff: int)

  predicate Visible(k: Key, s: Stored, r: Read) {
    k.venue == r.venue && k.version == r.version && s.row.availableAt <= r.cutoff && s.labeledAt <= r.asOf
  }

  /** `fetch_final_labels`: the rows it returns (their order is a function of them). */
  function FetchFinal(t: Table, r: Read): map<Key, Row> {
    map k | k in t && Visible(k, t[k], r) :: t[k].row
  }

  /** A read returns exactly the labels of its venue and version, available by its cutoff and written by its moment. */
  lemma FetchFinalHas(t: Table, r: Read, k: Key)
    ensures k in FetchFinal(t, r) <==>
      k in t && k.venue == r.venue && k.version == r.version && t[k].row.availableAt <= r.cutoff && t[k].labeledAt <= r.asOf
    ensures k in FetchFinal(t, r) ==> FetchFinal(t, r)[k] == t[k].row
  {
  }

  /** A label is final once its settle and revise times have passed. */
  lemma FinalIff(availableAt: int, asOf: int, settleSeconds: nat, reviseSeconds: nat)
    ensures availableAt <= FinalBefore(asOf, settleSeconds, reviseSeconds)
      <==> availableAt + 1000 * settleSeconds + 1000 * reviseSeconds <= asOf
  {
  }

  /** The stamp a write would leave. */
  function StampOf(t: Table, e: Entry, run: Run, chunk: nat): int {
    if e.key !in t then run.startedAt else run.clock(chunk)
  }

  /** Whether a write would put its row into the read. */
  predicate Appears(t: Table, e: Entry, run: Run, chunk: nat, r: Read) {
    Writes(t, e, run) && Visible(e.key, Stored(e.row, StampOf(t, e, run, chunk)), r)
  }

  /** A run at or after the read leaves what it returned, exactly when the write does not appear in it. */
  lemma ReadUnchangedIff(t: Table, e: Entry, run: Run, chunk: nat, r: Read)
    requires run.finalCutoff >= r.cutoff
    ensures FetchFinal(Upserted(t, e, run, chunk), r) == FetchFinal(t, r) <==> !Appears(t, e, run, chunk, r)
  {
    var t' := Upserted(t, e, run, chunk);
    var before, after := FetchFinal(t, r), FetchFinal(t', r);
    assert forall k :: k != e.key ==> (k in after <==> k in before) && (k in after ==> after[k] == before[k]);
    if Writes(t, e, run) {
      assert e.key !in before;
      assert e.key in after <==> Visible(e.key, t'[e.key], r);
      if e.key !in after {
        assert before == after;
      }
    }
  }

  datatype Write = Write(entry: Entry, run: Run, chunk: nat)

  function AfterWrites(t: Table, writes: seq<Write>): Table {
    if writes == [] then t
    else
      var w := writes[|writes| - 1];
      Upserted(AfterWrites(t, writes[..|writes| - 1]), w.entry, w.run, w.chunk)
  }

  /**
   Final labels are reproducible: any later writes, overlapping or out of order, by runs not earlier than the read and
   stamped after it, leave the same rows.
   */
  lemma {:induction false} FinalLabelsAreReproducible(t: Table, writes: seq<Write>, r: Read)
    requires forall w :: w in writes ==> w.run.finalCutoff >= r.cutoff && w.run.startedAt > r.asOf && w.run.clock(w.chunk) > r.asOf
    ensures FetchFinal(AfterWrites(t, writes), r) == FetchFinal(t, r)
  {
    hide FetchFinal;
    hide Upserted;
    if writes != [] {
      var front, w := writes[..|writes| - 1], writes[|writes| - 1];
      assert w in writes && forall x :: x in front ==> x in writes;
      FinalLabelsAreReproducible(t, front, r);
      ReadUnchangedIff(AfterWrites(t, front), w.entry, w.run, w.chunk, r);
    }
  }

  ghost predicate After(run: Run, r: Read) {
    run.finalCutoff >= r.cutoff && run.startedAt > r.asOf && forall chunk: nat :: run.clock(chunk) > r.asOf
  }

  lemma {:induction false} ChunkKeepsRead(t: Table, entries: seq<Entry>, run: Run, chunk: nat, r: Read)
    requires After(run, r)
    ensures FetchFinal(UpsertedAll(t, entries, run, chunk), r) == FetchFinal(t, r)
  {
    hide FetchFinal;
    hide Upserted;
    if entries != [] {
      var front, last := entries[..|entries| - 1], entries[|entries| - 1];
      ChunkKeepsRead(t, front, run, chunk, r);
      ReadUnchangedIff(UpsertedAll(t, front, run, chunk), last, run, chunk, r);
    }
  }

  lemma {:induction false} ChunksKeepRead(t: Table, entries: seq<Entry>, run: Run, chunks: nat, r: Read)
    requires After(run, r)
    ensures FetchFinal(AfterChunks(t, entries, run, chunks), r) == FetchFinal(t, r)
  {
    hide FetchFinal;
    hide UpsertedAll;
    if chunks > 0 {
      ChunksKeepRead(t, entries, run, chunks - 1, r);
      ChunkKeepsRead(AfterChunks(t, entries, run, chunks - 1), ChunkOf(entries, chunks - 1), run, chunks - 1, r);
    }
  }

  function AfterSaves(t: Table, saves: seq<(seq<Entry>, Run)>): Table {
    if saves == [] then t else Saved(AfterSaves(t, saves[..|saves| - 1]), saves[|saves| - 1].0, saves[|saves| - 1].1)
  }

  /** The same over whole runs of the labeler, failed ones included. */
  lemma {:induction false} SavesKeepRead(t: Table, saves: seq<(seq<Entry>, Run)>, r: Read)
    requires forall i :: 0 <= i < |saves| ==> After(saves[i].1, r)
    ensures FetchFinal(AfterSaves(t, saves), r) == FetchFinal(t, r)
  {
    hide FetchFinal;
    hide AfterChunks;
    hide After;
    if saves != [] {
      var front, last := saves[..|saves| - 1], saves[|saves| - 1];
      SavesKeepRead(t, front, r);
      ChunksKeepRead(AfterSaves(t, front), last.0, last.1, ChunkCount(last.0), r);
    }
  }

  /** A run's cutoff is not earlier than the read's whenever its own as_of is not. */
  lemma LaterRunsHaveLaterCutoffs(asOf: int, runAsOf: int, settleSeconds: nat, reviseSeconds: nat)
    requires runAsOf >= asOf
    ensures FinalBefore(runAsOf, settleSeconds, reviseSeconds) >= FinalBefore(asOf, settleSeconds, reviseSeconds)
  {
  }

  function SampleRow(id: string, listedAt: int, availableAt: int): Row {
    Row(id, "item", listedAt, 100, 0, None, None, None, None, availableAt)
  }

  /**
   Stamping after the read is needed: a transaction that had begun by the time of the read, and commits after it,
   adds a row to the same read.
   */
  lemma OpenTransactionChangesRead(asOf: int)
    ensures var r := Read(Skinport, "v1", asOf, asOf - 10);
      var e := Entry(Key(Skinport, "1", "v1"), SampleRow("1", asOf - 30, asOf - 20));
      var run := Run(asOf - 10, asOf, c => asOf);
      run.finalCutoff >= r.cutoff && FetchFinal(Upserted(map[], e, run, 0), r) != FetchFinal(map[], r)
  {
    var r := Read(Skinport, "v1", asOf, asOf - 10);
    var e := Entry(Key(Skinport, "1", "v1"), SampleRow("1", asOf - 30, asOf - 20));
    var run := Run(asOf - 10, asOf, c => asOf);
    assert e.key in FetchFinal(Upserted(map[], e, run, 0), r);
  }

  /** A run with an earlier as_of is needed out too: it still rewrites a label the read took as final. */
  lemma EarlierRunChangesRead(asOf: int)
    ensures var r := Read(Skinport, "v1", asOf, asOf - 10);
      var key := Key(Skinport, "1", "v1");
      var t := map[key := Stored(SampleRow("1", asOf - 30, asOf - 20), asOf - 15)];
      var run := Run(asOf - 25, asOf + 1, c => asOf + 1);
      FetchFinal(Upserted(t, Entry(key, SampleRow("1", asOf - 30, asOf - 20)), run, 0), r) != FetchFinal(t, r)
  {
    var r := Read(Skinport, "v1", asOf, asOf - 10);
    var key := Key(Skinport, "1", "v1");
    var t := map[key := Stored(SampleRow("1", asOf - 30, asOf - 20), asOf - 15)];
    assert key in FetchFinal(t, r);
  }

  // ---- The stored listing time ----

  /** Nothing a write leaves is later than what it found. */
  lemma {:induction false} ListedAtNeverIncreases(t: Table, writes: seq<Write>, k: Key)
    requires k in t
    ensures k in AfterWrites(t, writes) && AfterWrites(t, writes)[k].row.listedAt <= t[k].row.listedAt
  {
    if writes != [] {
      ListedAtNeverIncreases(t, writes[..|writes| - 1], k);
    }
  }

  /** A final label is kept by every run whose cutoff has reached it. */
  lemma {:induction false} FinalIsKept(t: Table, writes: seq<Write>, k: Key)
    requires k in t && forall w :: w in writes ==> w.run.finalCutoff >= t[k].row.availableAt
    ensures k in AfterWrites(t, writes) && AfterWrites(t, writes)[k] == t[k]
  {
    if writes != [] {
      var front, w := writes[..|writes| - 1], writes[|writes| - 1];
      assert w in writes && forall x :: x in front ==> x in writes;
      FinalIsKept(t, front, k);
    }
  }

  function EarliestWritten(writes: seq<Write>, k: Key): Option<int> {
    if writes == [] then None
    else
      var rest, e := EarliestWritten(writes[..|writes| - 1], k), writes[|writes| - 1].entry;
      if e.key != k then rest
      else if rest.Some? && rest.value <= e.row.listedAt then rest
      else Some(e.row.listedAt)
  }

  /** No run has reached the label yet: its cutoff lies before every row written for it. */
  ghost predicate NeverFinal(writes: seq<Write>, k: Key) {
    forall v, w :: v in writes && w in writes && v.entry.key == k && w.entry.key == k ==> v.entry.row.availableAt > w.run.finalCutoff
  }

  /** The stored row is one of those written for its key. */
  ghost predicate FromWrites(t: Table, writes: seq<Write>, k: Key) {
    k in t ==> exists w :: w in writes && w.entry.key == k && w.entry.row == t[k].row
  }

  /**
   While a label may still change, the stored listing time is that of the earliest sighting written, whatever the order
   of the runs; so runs over overlapping date ranges converge.
   */
  lemma NoRows(k: Key)
    ensures FromWrites(map[], [], k)
  {
  }

  lemma StillNeverFinal(front: seq<Write>, w: Write, k: Key)
    requires NeverFinal(front + [w], k)
    ensures NeverFinal(front, k)
    ensures forall v :: v in front && v.entry.key == w.entry.key == k ==> v.entry.row.availableAt > w.run.finalCutoff
  {
    assert forall v :: v in front ==> v in front + [w];
    assert w in front + [w];
  }

  lemma FromWritesSnoc(t: Table, front: seq<Write>, w: Write, k: Key)
    requires FromWrites(t, front, k)
    ensures FromWrites(Upserted(t, w.entry, w.run, w.chunk), front + [w], k)
  {
    assert w in front + [w];
    if k in t {
      var v :| v in front && v.entry.key == k && v.entry.row == t[k].row;
      assert v in front + [w];
    }
  }

  lemma NotFinalYet(t: Table, front: seq<Write>, w: Write)
    requires FromWrites(t, front, w.entry.key) && w.entry.key in t
    requires forall v :: v in front && v.entry.key == w.entry.key ==> v.entry.row.availableAt > w.run.finalCutoff
    ensures t[w.entry.key].row.availableAt > w.run.finalCutoff
  {
  }

  lemma {:induction false} ListedAtIsEarliest(writes: seq<Write>, k: Key)
    requires NeverFinal(writes, k)
    ensures var t := AfterWrites(map[], writes);
      FromWrites(t, writes, k) && EarliestWritten(writes, k) == if k in t then Some(t[k].row.listedAt) else None
  {
    hide NeverFinal;
    hide FromWrites;
    if writes == [] {
      NoRows(k);
    } else {
      var front, w := writes[..|writes| - 1], writes[|writes| - 1];
      assert writes == front + [w];
      StillNeverFinal(front, w, k);
      ListedAtIsEarliest(front, k);
      var t := AfterWrites(map[], front);
      FromWritesSnoc(t, front, w, k);
      if k in t && w.entry.key == k {
        NotFinalYet(t, front, w);
      }
    }
  }
}
